/** The week window of both view models: seven day blocks from the Monday of the current
    week shifted by whole weeks, each holding the matches whose Berlin kickoff date is that
    day, sorted by kickoff and turned into display items. "Today" is a parameter (an epoch day
    in Europe/Berlin). */
module Week {
  import opened Basics
  import opened Calendar
  import opened Sorting
  import opened TvRights
  import opened Models
  import opened Scores

  /** `startOfCurrentWeek` on Android: back to the ISO Monday. */
  function StartOfCurrentWeek(today: int): (monday: int)
    ensures IsoWeekday(monday) == 1
    ensures today - 6 <= monday <= today
  {
    today - (IsoWeekday(today) - 1)
  }

  /** The Monday at most six days back is unique. */
  lemma StartOfCurrentWeekUnique(today: int, m: int)
    requires IsoWeekday(m) == 1 && today - 6 <= m <= today
    ensures m == StartOfCurrentWeek(today)
  {
  }

  /** `mondayOffset` on iOS, from the Gregorian weekday (Sunday = 1). */
  function MondayOffset(weekday: int): (o: int)
    ensures 1 <= weekday <= 7 ==> -6 <= o <= 0 && (weekday + o - 2) % 7 == 0
  {
    if weekday == 1 then -6 else 2 - weekday
  }

  /** The iOS offset lands on the same Monday as the Android formula. */
  lemma MondayOffsetAgrees(today: int)
    ensures today + MondayOffset(GregorianWeekday(today)) == StartOfCurrentWeek(today)
  {
  }

  /** The first day of the window shown at `weekOffset`, as each platform computes it. */
  function WindowMonday(p: Platform, today: int, weekOffset: int): (monday: int)
    ensures monday == StartOfCurrentWeek(today) + 7 * weekOffset
  {
    MondayOffsetAgrees(today);
    match p
    case Android => StartOfCurrentWeek(today) + weekOffset * 7
    case Ios => today + (MondayOffset(GregorianWeekday(today)) + weekOffset * 7)
  }

  lemma IsoWeekdayWeeks(day: int, k: int)
    ensures IsoWeekday(day + 7 * k) == IsoWeekday(day)
  {
    assert (day + 7 * k + 3) % 7 == (day + 3) % 7;
  }

  /** Both platforms put the window on a Monday, `7·weekOffset` days from the current week's
      Monday, and the next window begins seven days later. */
  lemma WindowStartsOnMonday(p: Platform, today: int, weekOffset: int)
    ensures WindowMonday(p, today, weekOffset) == StartOfCurrentWeek(today) + 7 * weekOffset
    ensures IsoWeekday(WindowMonday(p, today, weekOffset)) == 1
    ensures WindowMonday(p, today, weekOffset + 1) == WindowMonday(p, today, weekOffset) + 7
  {
    MondayOffsetAgrees(today);
    IsoWeekdayWeeks(StartOfCurrentWeek(today), weekOffset);
  }

  /** Windows at different offsets share no day. */
  lemma WindowsDisjoint(p: Platform, today: int, a: int, b: int, i: int, j: int)
    requires a != b
    requires 0 <= i < 7 && 0 <= j < 7
    ensures WindowMonday(p, today, a) + i != WindowMonday(p, today, b) + j
  {
    WindowStartsOnMonday(p, today, a);
    WindowStartsOnMonday(p, today, b);
  }

  /** The weekday of each day of a week starting on Monday. */
  lemma WeekdayInWeek(monday: int, i: int)
    requires IsoWeekday(monday) == 1 && 0 <= i < 7
    ensures IsoWeekday(monday + i) == i + 1
  {
  }

  /** One row of a day block (`MatchItemUi` / `MatchItem`); only iOS gives an item an `id`. */
  datatype MatchItem = MatchItem(
    id: Option<string>,
    kickoff: string,
    home: string,
    away: string,
    score: string,
    tvChannels: seq<TvChannel>)

  /** `DayBlockUi` / `DayBlock`. */
  datatype DayBlock = DayBlock(dayLabel: string, dateLabel: string, isToday: bool, matches: seq<MatchItem>)

  /** Whether the match kicks off on `date` on the Berlin calendar. */
  predicate OnDate(env: TimeEnv, m: OpenLigaMatch, date: int) {
    BerlinKickoff(env, m).Some? && BerlinKickoff(env, m).value.date == date
  }

  function OnDateFilter(env: TimeEnv, date: int): OpenLigaMatch -> bool {
    m => OnDate(env, m, date)
  }

  /** The sort key of a day's matches: the kickoff instant (every match of a day has one). */
  function ByKickoff(env: TimeEnv): OpenLigaMatch -> int {
    m => Kickoff(env, m).GetOr(0)
  }

  /** Whether the match kicks off, on the Berlin calendar, on a day from `first` up to but
      not including `stop`. */
  function InDays(env: TimeEnv, first: int, stop: int): OpenLigaMatch -> bool {
    m => BerlinKickoff(env, m).Some? && first <= BerlinKickoff(env, m).value.date < stop
  }

  /** The matches of one day, ascending by kickoff, ties kept in input order. */
  function DayMatches(env: TimeEnv, all: seq<OpenLigaMatch>, date: int): (ms: seq<OpenLigaMatch>)
    ensures |ms| <= |all|
    ensures forall j :: 0 <= j < |ms| ==> ms[j] in all && OnDate(env, ms[j], date)
  {
    var candidates := Filter(all, OnDateFilter(env, date));
    var ms := SortBy(candidates, ByKickoff(env));
    SameElements(ms, candidates);
    ms
  }

  /** A match is among a day's matches exactly when it was loaded and kicks off on that day in
      Berlin, and the day's kickoffs never decrease. */
  lemma DayMatchesOfDate(env: TimeEnv, all: seq<OpenLigaMatch>, date: int)
    ensures var ms := DayMatches(env, all, date);
      (forall j :: 0 <= j < |ms| ==> ms[j] in all && OnDate(env, ms[j], date))
      && (forall i :: 0 <= i < |all| && OnDate(env, all[i], date) ==> all[i] in ms)
    ensures var ms := DayMatches(env, all, date);
      forall j, k :: 0 <= j < k < |ms| ==>
        Kickoff(env, ms[j]).Some? && Kickoff(env, ms[k]).Some? && Kickoff(env, ms[j]).value <= Kickoff(env, ms[k]).value
    ensures var ms := DayMatches(env, all, date);
      forall x :: multiset(ms)[x] == if OnDate(env, x, date) then multiset(all)[x] else 0
  {
    DayMatchesMembers(env, all, date);
    DayMatchesAscending(env, all, date);
    FilterMultiplicity(all, OnDateFilter(env, date));
  }

  lemma DayMatchesMembers(env: TimeEnv, all: seq<OpenLigaMatch>, date: int)
    ensures var ms := DayMatches(env, all, date);
      (forall j :: 0 <= j < |ms| ==> ms[j] in all && OnDate(env, ms[j], date))
      && (forall i :: 0 <= i < |all| && OnDate(env, all[i], date) ==> all[i] in ms)
  {
    var candidates := Filter(all, OnDateFilter(env, date));
    var ms := DayMatches(env, all, date);
    SameElements(ms, candidates);
    forall i | 0 <= i < |all| && OnDate(env, all[i], date)
      ensures all[i] in ms
    {
      assert OnDateFilter(env, date)(all[i]);
    }
  }

  lemma DayMatchesAscending(env: TimeEnv, all: seq<OpenLigaMatch>, date: int)
    ensures var ms := DayMatches(env, all, date);
      forall j, k :: 0 <= j < k < |ms| ==>
        Kickoff(env, ms[j]).Some? && Kickoff(env, ms[k]).Some? && Kickoff(env, ms[j]).value <= Kickoff(env, ms[k]).value
  {
    var ms := DayMatches(env, all, date);
    DayMatchesMembers(env, all, date);
    forall j, k | 0 <= j < k < |ms|
      ensures Kickoff(env, ms[j]).Some? && Kickoff(env, ms[k]).Some? && Kickoff(env, ms[j]).value <= Kickoff(env, ms[k]).value
    {
      assert OnDate(env, ms[j], date) && OnDate(env, ms[k], date);
      assert ByKickoff(env)(ms[j]) <= ByKickoff(env)(ms[k]);
    }
  }

  /** Matches with the same kickoff appear in the order they were loaded. */
  lemma DayMatchesStable(env: TimeEnv, all: seq<OpenLigaMatch>, date: int, instant: int)
    ensures WithKey(DayMatches(env, all, date), ByKickoff(env), instant)
      == WithKey(Filter(all, OnDateFilter(env, date)), ByKickoff(env), instant)
  {
    SortByStable(Filter(all, OnDateFilter(env, date)), ByKickoff(env), instant);
  }

  /** A match belongs to at most one day, and a match without kickoff to none. */
  lemma AtMostOneDay(env: TimeEnv, all: seq<OpenLigaMatch>, m: OpenLigaMatch, d1: int, d2: int)
    ensures m in DayMatches(env, all, d1) && m in DayMatches(env, all, d2) ==> d1 == d2
    ensures Kickoff(env, m).None? ==> m !in DayMatches(env, all, d1)
  {
    DayMatchesOfDate(env, all, d1);
    DayMatchesOfDate(env, all, d2);
  }

  const NoKickoffLabel := "--:--"

  /** `kickoff?.format("HH:mm") ?: "--:--"`. */
  function KickoffLabel(k: Option<LocalDateTime>): (s: string)
    ensures k.None? <==> s == NoKickoffLabel
  {
    match k
    case None => NoKickoffLabel
    case Some(t) => assert TimeLabel(t)[0] != '-'; TimeLabel(t)
  }

  /** The iOS item id: date label, both team names ("x" and "y" when missing) and the kickoff
      time (midnight of the day when there is none), joined by dashes. */
  function ItemId(dateLabel: string, m: OpenLigaMatch, time: string): string {
    dateLabel + "-" + NameOr(m.team1, "x") + "-" + NameOr(m.team2, "y") + "-" + time
  }

  function Resolve(p: Platform, league: string, kickoff: Option<LocalDateTime>): seq<TvChannel> {
    match p
    case Android => ResolveAndroid(league, kickoff)
    case Ios => ResolveIos(league, kickoff)
  }

  /** The display item of a match on `date` (the `map` of `recalcWeek`). */
  function MakeItem(p: Platform, env: TimeEnv, league: string, date: int, m: OpenLigaMatch): (item: MatchItem)
    ensures item.id.Some? <==> p == Ios
    ensures item.kickoff == NoKickoffLabel <==> Kickoff(env, m).None?
  {
    var k := BerlinKickoff(env, m);
    MatchItem(
      if p == Ios then Some(ItemId(DateLabel(date), m, TimeLabel(k.GetOr(LocalDateTime(date, 0, 0, 0)))))
      else None,
      KickoffLabel(k),
      TeamName(m.team1),
      TeamName(m.team2),
      FinalScore(m.matchResults),
      Resolve(p, league, k))
  }

  function DayItems(p: Platform, env: TimeEnv, league: string, date: int, all: seq<OpenLigaMatch>): seq<MatchItem> {
    var ms := DayMatches(env, all, date);
    seq(|ms|, j requires 0 <= j < |ms| => MakeItem(p, env, league, date, ms[j]))
  }

  function Block(p: Platform, env: TimeEnv, league: string, today: int, date: int, all: seq<OpenLigaMatch>): DayBlock {
    DayBlock(DayLabel(date), DateLabel(date), date == today, DayItems(p, env, league, date, all))
  }

  /** The seven day blocks of the week starting at `monday`. */
  function WeekBlocks(p: Platform, env: TimeEnv, league: string, today: int, monday: int, all: seq<OpenLigaMatch>)
    : (blocks: seq<DayBlock>)
    ensures |blocks| == 7
  {
    seq(7, i requires 0 <= i < 7 => Block(p, env, league, today, monday + i, all))
  }

  lemma BlockAt(p: Platform, env: TimeEnv, league: string, today: int, monday: int, all: seq<OpenLigaMatch>, i: int)
    requires 0 <= i < 7
    ensures WeekBlocks(p, env, league, today, monday, all)[i] == Block(p, env, league, today, monday + i, all)
  {
    // The block's contents play no part in where it sits.
    hide Block;
  }

  /** Block `i` is labelled with date `monday + i`, and marked exactly when that is today. */
  lemma BlockDates(p: Platform, env: TimeEnv, league: string, today: int, monday: int, all: seq<OpenLigaMatch>)
    ensures var blocks := WeekBlocks(p, env, league, today, monday, all);
      forall i :: 0 <= i < 7 ==>
        blocks[i].dateLabel == DateLabel(monday + i) && (blocks[i].isToday <==> monday + i == today)
  {
    var blocks := WeekBlocks(p, env, league, today, monday, all);
    forall i | 0 <= i < 7
      ensures blocks[i].dateLabel == DateLabel(monday + i) && (blocks[i].isToday <==> monday + i == today)
    {
      hide WeekBlocks, DayItems;
      BlockAt(p, env, league, today, monday, all, i);
    }
  }

  /** `"dd.MM.yyyy - dd.MM.yyyy"` from Monday to Sunday. */
  function WeekLabel(monday: int): string {
    DateLabel(monday) + " - " + DateLabel(monday + 6)
  }

  /** The blocks run Monday to Sunday over consecutive dates; the label spans the first and the
      last block. */
  lemma WeekShape(p: Platform, env: TimeEnv, league: string, today: int, monday: int, all: seq<OpenLigaMatch>)
    requires IsoWeekday(monday) == 1
    ensures var blocks := WeekBlocks(p, env, league, today, monday, all);
      (forall i :: 0 <= i < 7 ==> blocks[i].dayLabel == GermanWeekdays[i])
      && (forall i :: 0 <= i < 7 ==> blocks[i].dateLabel == DateLabel(monday + i))
      && WeekLabel(monday) == blocks[0].dateLabel + " - " + blocks[6].dateLabel
  {
    var blocks := WeekBlocks(p, env, league, today, monday, all);
    forall i | 0 <= i < 7
      ensures blocks[i].dayLabel == GermanWeekdays[i] && blocks[i].dateLabel == DateLabel(monday + i)
    {
      hide WeekBlocks, DayItems;
      BlockAt(p, env, league, today, monday, all, i);
      WeekdayInWeek(monday, i);
    }
  }

  /** In the current week exactly one block, today's, is marked; in any other week none is. */
  lemma TodayMarked(p: Platform, env: TimeEnv, league: string, today: int, weekOffset: int, all: seq<OpenLigaMatch>)
    ensures var blocks := WeekBlocks(p, env, league, today, WindowMonday(p, today, weekOffset), all);
      weekOffset == 0 ==>
        0 <= today - StartOfCurrentWeek(today) < 7
        && forall i :: 0 <= i < 7 ==> (blocks[i].isToday <==> i == today - StartOfCurrentWeek(today))
    ensures var blocks := WeekBlocks(p, env, league, today, WindowMonday(p, today, weekOffset), all);
      weekOffset != 0 ==> forall i :: 0 <= i < 7 ==> !blocks[i].isToday
  {
    var monday := WindowMonday(p, today, weekOffset);
    var blocks := WeekBlocks(p, env, league, today, monday, all);
    WindowStartsOnMonday(p, today, weekOffset);
    forall i | 0 <= i < 7
      ensures blocks[i].isToday <==> monday + i == today
    {
      hide WeekBlocks, DayItems;
      BlockAt(p, env, league, today, monday, all, i);
    }
  }

  /** The item of a match kicking off on `date` shows its Berlin kickoff time (never the
      placeholder), its team names with "Unbekannt" for a missing one, and its final score;
      only iOS gives it an id. */
  lemma ItemContents(p: Platform, env: TimeEnv, league: string, date: int, m: OpenLigaMatch)
    requires OnDate(env, m, date)
    ensures var item := MakeItem(p, env, league, date, m);
      item.kickoff == TimeLabel(env.inBerlin(Kickoff(env, m).value))
      && item.kickoff != NoKickoffLabel
      && item.home == TeamName(m.team1)
      && item.away == TeamName(m.team2)
      && item.score == FinalScore(m.matchResults)
      && item.tvChannels == Resolve(p, league, Some(env.inBerlin(Kickoff(env, m).value)))
      && (p == Ios ==> item.id == Some(ItemId(DateLabel(date), m, TimeLabel(env.inBerlin(Kickoff(env, m).value)))))
      && (p == Android ==> item.id.None?)
  {
  }

  /** Block `i` holds one item per match of its date, in kickoff order. */
  lemma BlockItems(p: Platform, env: TimeEnv, league: string, today: int, monday: int,
                   all: seq<OpenLigaMatch>, i: int)
    requires 0 <= i < 7
    ensures var block := WeekBlocks(p, env, league, today, monday, all)[i];
      var ms := DayMatches(env, all, monday + i);
      |block.matches| == |ms|
      && forall j :: 0 <= j < |ms| ==> block.matches[j] == MakeItem(p, env, league, monday + i, ms[j])
  {
    hide WeekBlocks, DateLabel, DayLabel, MakeItem;
    BlockAt(p, env, league, today, monday, all, i);
  }

  /** Items with their ids dropped: what both platforms show. */
  function StripIds(items: seq<MatchItem>): seq<MatchItem> {
    seq(|items|, j requires 0 <= j < |items| => items[j].(id := None))
  }

  /** For every league but bl1 the two apps build the same item from a match, apart from the
      iOS id, as long as their time libraries read the match's kickoff alike. */
  lemma ItemsAgree(envA: TimeEnv, envI: TimeEnv, league: string, date: int, m: OpenLigaMatch)
    requires league != "bl1"
    requires BerlinKickoff(envA, m) == BerlinKickoff(envI, m)
    ensures MakeItem(Android, envA, league, date, m).(id := None) == MakeItem(Ios, envI, league, date, m).(id := None)
  {
    var k := BerlinKickoff(envA, m);
    if k.Some? {
      OtherLeaguesAgree(league, k.value);
    }
  }

  /** The day's matches depend on the time library only through the kickoffs it gives them. */
  lemma DayMatchesCongruent(envA: TimeEnv, envI: TimeEnv, all: seq<OpenLigaMatch>, date: int)
    requires forall m :: m in all ==> Kickoff(envA, m) == Kickoff(envI, m) && BerlinKickoff(envA, m) == BerlinKickoff(envI, m)
    ensures DayMatches(envA, all, date) == DayMatches(envI, all, date)
  {
    assert forall i :: 0 <= i < |all| ==> all[i] in all;
    FilterCongruent(all, OnDateFilter(envA, date), OnDateFilter(envI, date));
    var candidates := Filter(all, OnDateFilter(envA, date));
    SortByCongruent(candidates, ByKickoff(envA), ByKickoff(envI));
  }

  /** Apart from the iOS item ids, the two apps build the same day block for every league but
      bl1, whose TV lists differ on Tuesday and Wednesday at 20:30, as long as their time
      libraries read every loaded kickoff alike. */
  lemma PlatformsAgree(envA: TimeEnv, envI: TimeEnv, league: string, today: int, date: int, all: seq<OpenLigaMatch>)
    requires league != "bl1"
    requires forall m :: m in all ==> Kickoff(envA, m) == Kickoff(envI, m) && BerlinKickoff(envA, m) == BerlinKickoff(envI, m)
    ensures var a := Block(Android, envA, league, today, date, all);
      var b := Block(Ios, envI, league, today, date, all);
      a.dayLabel == b.dayLabel && a.dateLabel == b.dateLabel && a.isToday == b.isToday
      && StripIds(a.matches) == StripIds(b.matches)
  {
    DayMatchesCongruent(envA, envI, all, date);
    var ms := DayMatches(envA, all, date);
    forall j | 0 <= j < |ms|
      ensures StripIds(DayItems(Android, envA, league, date, all))[j] == StripIds(DayItems(Ios, envI, league, date, all))[j]
    {
      ItemsAgree(envA, envI, league, date, ms[j]);
    }
  }
}
