/** Broadcaster lookup: a static per-league rule table keyed by the kickoff's weekday, hour
    and minute in Europe/Berlin, with a wildcard row (weekday -1) as the catch-all. The Android
    table numbers weekdays Sunday = 0 … Saturday = 6, the iOS table Sunday = 1 … Saturday = 7. */
module TvRights {
  import opened Basics
  import opened Calendar

  datatype TvChannel = TvChannel(name: string, isFree: bool)

  /** One table row. `day` is the platform's weekday number, or `Wildcard` for the catch-all. */
  datatype Rule = Rule(day: int, hour: int, minute: int, channels: seq<TvChannel>)

  const Wildcard: int := -1

  const Sky := TvChannel("Sky", false)
  const DaznKonf := TvChannel("DAZN Konf.", false)
  const Dazn := TvChannel("DAZN", false)
  const Rtl := TvChannel("RTL", true)
  const ArdZdf := TvChannel("ARD/ZDF", true)
  const Prime := TvChannel("Prime", false)
  const Zdf := TvChannel("ZDF", true)

  /** `rightsByLeague` of the Android app (Sunday = 0). */
  const AndroidBl1: seq<Rule> := [
    Rule(5, 20, 30, [Sky]),
    Rule(6, 15, 30, [Sky, DaznKonf]),
    Rule(6, 18, 30, [Sky]),
    Rule(0, 15, 30, [Dazn]),
    Rule(0, 17, 30, [Dazn]),
    Rule(0, 19, 30, [Dazn]),
    Rule(2, 20, 30, [Sky]),
    Rule(3, 20, 30, [Sky])
  ]
  const AndroidBl2: seq<Rule> := [
    Rule(5, 18, 30, [Sky]),
    Rule(6, 13, 0, [Sky]),
    Rule(6, 20, 30, [Sky, Rtl]),
    Rule(0, 13, 30, [Sky])
  ]
  const DfbRules: seq<Rule> := [Rule(Wildcard, -1, -1, [Sky, ArdZdf])]
  const UclRules: seq<Rule> := [Rule(Wildcard, -1, -1, [Dazn, Prime, Zdf])]

  const AndroidRights: map<string, seq<Rule>> :=
    map["bl1" := AndroidBl1, "bl2" := AndroidBl2, "dfb" := DfbRules, "ucl" := UclRules]

  /** `rules` of the iOS app (Sunday = 1): it has no Tuesday or Wednesday row for bl1. */
  const IosBl1: seq<Rule> := [
    Rule(6, 20, 30, [Sky]),
    Rule(7, 15, 30, [Sky, DaznKonf]),
    Rule(7, 18, 30, [Sky]),
    Rule(1, 15, 30, [Dazn]),
    Rule(1, 17, 30, [Dazn]),
    Rule(1, 19, 30, [Dazn])
  ]
  const IosBl2: seq<Rule> := [
    Rule(6, 18, 30, [Sky]),
    Rule(7, 13, 0, [Sky]),
    Rule(7, 20, 30, [Sky, Rtl]),
    Rule(1, 13, 30, [Sky])
  ]

  const IosRules: map<string, seq<Rule>> :=
    map["bl1" := IosBl1, "bl2" := IosBl2, "dfb" := DfbRules, "ucl" := UclRules]

  predicate IsExact(r: Rule, day: int, hour: int, minute: int) {
    r.day == day && r.hour == hour && r.minute == minute
  }

  predicate IsWildcard(r: Rule) {
    r.day == Wildcard
  }

  /** The row test of the exact search. */
  function ExactAt(day: int, hour: int, minute: int): Rule -> bool {
    (x: Rule) => IsExact(x, day, hour, minute)
  }

  /** The shared search of both platforms: the first exact row in table order, else the first
      wildcard row, else nothing. */
  function Lookup(rules: seq<Rule>, day: int, hour: int, minute: int): (r: seq<TvChannel>)
    ensures r == [] || exists i :: 0 <= i < |rules| && r == rules[i].channels
  {
    match FirstIndex(rules, ExactAt(day, hour, minute))
    case Some(i) => rules[i].channels
    case None =>
      match FirstIndex(rules, IsWildcard)
      case Some(i) => rules[i].channels
      case None => []
  }

  /** What the search returns: the first exact row's channels verbatim if there is one, else
      the first wildcard row's, else the empty list; in every case one row's list or nothing. */
  lemma LookupFirstMatch(rules: seq<Rule>, day: int, hour: int, minute: int)
    ensures var r := Lookup(rules, day, hour, minute);
      (exists i :: 0 <= i < |rules| && IsExact(rules[i], day, hour, minute)) ==>
      exists i :: 0 <= i < |rules| && IsExact(rules[i], day, hour, minute) && r == rules[i].channels
        && forall j :: 0 <= j < i ==> !IsExact(rules[j], day, hour, minute)
    ensures var r := Lookup(rules, day, hour, minute);
      (forall i :: 0 <= i < |rules| ==> !IsExact(rules[i], day, hour, minute)) ==>
      ((exists i :: 0 <= i < |rules| && IsWildcard(rules[i])) ==>
        exists i :: 0 <= i < |rules| && IsWildcard(rules[i]) && r == rules[i].channels
          && forall j :: 0 <= j < i ==> !IsWildcard(rules[j]))
    ensures (forall i :: 0 <= i < |rules| ==> !IsExact(rules[i], day, hour, minute) && !IsWildcard(rules[i]))
      ==> Lookup(rules, day, hour, minute) == []
    ensures var r := Lookup(rules, day, hour, minute);
      r == [] || exists i :: 0 <= i < |rules| && r == rules[i].channels
  {
  }

  /** `resolveTvChannels` on Android: `kickoff` is the Berlin wall-clock time of the kickoff. */
  function ResolveAndroid(league: string, kickoff: Option<LocalDateTime>): (r: seq<TvChannel>)
    ensures kickoff.None? ==> r == []
    ensures league !in AndroidRights ==> r == []
  {
    if kickoff.None? || league !in AndroidRights then []
    else
      var t := kickoff.value;
      Lookup(AndroidRights[league], AndroidWeekday(t.date), t.hour, t.minute)
  }

  /** `resolveTvChannels(league:kickoff:)` on iOS, with the Gregorian weekday of the Berlin date. */
  function ResolveIos(league: string, kickoff: Option<LocalDateTime>): (r: seq<TvChannel>)
    ensures kickoff.None? ==> r == []
    ensures league !in IosRules ==> r == []
  {
    if kickoff.None? || league !in IosRules then []
    else
      var t := kickoff.value;
      Lookup(IosRules[league], GregorianWeekday(t.date), t.hour, t.minute)
  }

  /** No real kickoff hits a wildcard row as an exact match on Android: its weekday key is
      never -1. A wildcard row therefore only ever serves as the fallback. */
  lemma AndroidNeverExactWildcard(rules: seq<Rule>, t: LocalDateTime)
    ensures forall i :: 0 <= i < |rules| && IsWildcard(rules[i]) ==>
      !IsExact(rules[i], AndroidWeekday(t.date), t.hour, t.minute)
  {
  }

  /** The cup and Champions League tables apply their wildcard to every kickoff, on both platforms. */
  lemma WildcardLeagues(t: LocalDateTime)
    ensures ResolveAndroid("dfb", Some(t)) == [Sky, ArdZdf]
    ensures ResolveAndroid("ucl", Some(t)) == [Dazn, Prime, Zdf]
    ensures ResolveIos("dfb", Some(t)) == [Sky, ArdZdf]
    ensures ResolveIos("ucl", Some(t)) == [Dazn, Prime, Zdf]
  {
    assert AndroidRights["dfb"] == DfbRules && IosRules["dfb"] == DfbRules;
    assert AndroidRights["ucl"] == UclRules && IosRules["ucl"] == UclRules;
  }

  /** Leagues without a table (the third division, or any unknown id) have no broadcasters. */
  lemma LeaguesWithoutTable(t: LocalDateTime)
    ensures ResolveAndroid("bl3", Some(t)) == [] && ResolveIos("bl3", Some(t)) == []
  {
  }

  /** Bundesliga Saturday 15:30 is the Sky/DAZN conference on both platforms. */
  lemma Bl1SaturdayAfternoon(t: LocalDateTime)
    requires IsoWeekday(t.date) == 6 && t.hour == 15 && t.minute == 30
    ensures ResolveAndroid("bl1", Some(t)) == [Sky, DaznKonf]
    ensures ResolveIos("bl1", Some(t)) == [Sky, DaznKonf]
  {
    assert AndroidRights["bl1"] == AndroidBl1 && IosRules["bl1"] == IosBl1;
    assert IsExact(AndroidBl1[1], 6, 15, 30) && !IsExact(AndroidBl1[0], 6, 15, 30);
    assert IsExact(IosBl1[1], 7, 15, 30) && !IsExact(IosBl1[0], 7, 15, 30);
  }

  /** Bundesliga Saturday 20:30 has no row (the only 20:30 Sky row is Friday's) and bl1 has no
      wildcard, so nothing is shown. */
  lemma Bl1SaturdayEvening(t: LocalDateTime)
    requires IsoWeekday(t.date) == 6 && t.hour == 20 && t.minute == 30
    ensures ResolveAndroid("bl1", Some(t)) == []
    ensures ResolveIos("bl1", Some(t)) == []
  {
    assert AndroidRights["bl1"] == AndroidBl1 && IosRules["bl1"] == IosBl1;
    assert forall i :: 0 <= i < |AndroidBl1| ==> !IsExact(AndroidBl1[i], 6, 20, 30) && !IsWildcard(AndroidBl1[i]);
    assert forall i :: 0 <= i < |IosBl1| ==> !IsExact(IosBl1[i], 7, 20, 30) && !IsWildcard(IosBl1[i]);
    LookupFirstMatch(AndroidBl1, 6, 20, 30);
    LookupFirstMatch(IosBl1, 7, 20, 30);
  }

  /** The iOS form of a table: weekday numbers moved up by one, wildcards kept. */
  function ShiftDays(rules: seq<Rule>): (r: seq<Rule>)
    ensures |r| == |rules|
    ensures forall i :: 0 <= i < |rules| ==>
      r[i] == rules[i].(day := if rules[i].day == Wildcard then Wildcard else rules[i].day + 1)
  {
    if |rules| == 0 then []
    else
      var x := rules[0];
      [x.(day := if x.day == Wildcard then Wildcard else x.day + 1)] + ShiftDays(rules[1..])
  }

  /** Looking a weekday up in a shifted table is looking the unshifted weekday up in the original. */
  lemma LookupShifted(rules: seq<Rule>, day: int, hour: int, minute: int)
    requires 0 <= day
    requires forall i :: 0 <= i < |rules| ==> rules[i].day >= Wildcard
    ensures Lookup(ShiftDays(rules), day + 1, hour, minute) == Lookup(rules, day, hour, minute)
  {
    var shifted := ShiftDays(rules);
    FirstIndexCongruent(shifted, ExactAt(day + 1, hour, minute), rules, ExactAt(day, hour, minute));
    FirstIndexCongruent(shifted, IsWildcard, rules, IsWildcard);
  }

  lemma IosTablesAreShifted()
    ensures IosBl1 == ShiftDays(AndroidBl1[..6])
    ensures IosBl2 == ShiftDays(AndroidBl2)
    ensures DfbRules == ShiftDays(DfbRules)
    ensures UclRules == ShiftDays(UclRules)
  {
  }

  /** Dropping the Tuesday and Wednesday rows changes the bl1 lookup only at those two times. */
  lemma Bl1WithoutMidweek(day: int, hour: int, minute: int)
    requires !((day == 2 || day == 3) && hour == 20 && minute == 30)
    ensures Lookup(AndroidBl1[..6], day, hour, minute) == Lookup(AndroidBl1, day, hour, minute)
  {
    FirstIndexPrefix(AndroidBl1, 6, ExactAt(day, hour, minute));
    FirstIndexPrefix(AndroidBl1, 6, IsWildcard);
  }

  /** Tuesday and Wednesday 20:30 hit Android's midweek rows; iOS has neither row nor wildcard. */
  lemma Bl1Midweek(day: int)
    requires day == 2 || day == 3
    ensures Lookup(AndroidBl1, day, 20, 30) == [Sky]
    ensures Lookup(IosBl1, day + 1, 20, 30) == []
  {
    assert forall i :: 0 <= i < |IosBl1| ==> IosBl1[i].day != day + 1 && !IsWildcard(IosBl1[i]);
    LookupFirstMatch(IosBl1, day + 1, 20, 30);
    assert IsExact(AndroidBl1[day + 4], day, 20, 30);
    assert forall i :: 0 <= i < day + 4 ==> !IsExact(AndroidBl1[i], day, 20, 30);
  }

  /** The bl1 tables agree except at Tuesday and Wednesday 20:30. */
  lemma Bl1Agreement(t: LocalDateTime)
    ensures var day := AndroidWeekday(t.date);
      (day == 2 || day == 3) && t.hour == 20 && t.minute == 30
      ==> Lookup(AndroidBl1, day, t.hour, t.minute) == [Sky]
          && Lookup(IosBl1, day + 1, t.hour, t.minute) == []
    ensures var day := AndroidWeekday(t.date);
      !((day == 2 || day == 3) && t.hour == 20 && t.minute == 30)
      ==> Lookup(IosBl1, day + 1, t.hour, t.minute) == Lookup(AndroidBl1, day, t.hour, t.minute)
  {
    var day := AndroidWeekday(t.date);
    if (day == 2 || day == 3) && t.hour == 20 && t.minute == 30 {
      Bl1Midweek(day);
    } else {
      IosTablesAreShifted();
      LookupShifted(AndroidBl1[..6], day, t.hour, t.minute);
      Bl1WithoutMidweek(day, t.hour, t.minute);
    }
  }

  /** Apart from bl1, looking a weekday up in a league's iOS table is looking the Android
      number of that weekday up in its Android table. */
  lemma ShiftedLeagueTables(league: string, day: int, hour: int, minute: int)
    requires 0 <= day && league != "bl1" && league in AndroidRights
    ensures league in IosRules
    ensures Lookup(IosRules[league], day + 1, hour, minute) == Lookup(AndroidRights[league], day, hour, minute)
  {
    IosTablesAreShifted();
    if league == "bl2" {
      assert AndroidRights[league] == AndroidBl2 && IosRules[league] == IosBl2;
      LookupShifted(AndroidBl2, day, hour, minute);
    } else if league == "dfb" {
      assert AndroidRights[league] == DfbRules && IosRules[league] == DfbRules;
      LookupShifted(DfbRules, day, hour, minute);
    } else {
      assert league == "ucl";
      assert AndroidRights[league] == UclRules && IosRules[league] == UclRules;
      LookupShifted(UclRules, day, hour, minute);
    }
  }

  /** Both platforms have tables for the same leagues. */
  lemma SameLeagues()
    ensures AndroidRights.Keys == IosRules.Keys
  {
  }

  /** Every league but bl1 resolves the same on both platforms. */
  lemma OtherLeaguesAgree(league: string, t: LocalDateTime)
    requires league != "bl1"
    ensures ResolveIos(league, Some(t)) == ResolveAndroid(league, Some(t))
  {
    SameLeagues();
    if league in AndroidRights {
      ShiftedLeagueTables(league, AndroidWeekday(t.date), t.hour, t.minute);
    }
  }

  /** The bl1 tables the two platforms search, at the Android weekday number. */
  lemma Bl1Tables(t: LocalDateTime)
    ensures ResolveAndroid("bl1", Some(t)) == Lookup(AndroidBl1, AndroidWeekday(t.date), t.hour, t.minute)
    ensures ResolveIos("bl1", Some(t)) == Lookup(IosBl1, AndroidWeekday(t.date) + 1, t.hour, t.minute)
  {
    assert AndroidRights["bl1"] == AndroidBl1 && IosRules["bl1"] == IosBl1;
  }

  /** The two apps agree on every league and kickoff except bl1 on Tuesday and Wednesday at
      20:30, where Android shows Sky and iOS shows nothing. */
  lemma CrossPlatformAgreement(league: string, t: LocalDateTime)
    ensures !(league == "bl1" && (IsoWeekday(t.date) == 2 || IsoWeekday(t.date) == 3)
              && t.hour == 20 && t.minute == 30)
      ==> ResolveIos(league, Some(t)) == ResolveAndroid(league, Some(t))
    ensures league == "bl1" && (IsoWeekday(t.date) == 2 || IsoWeekday(t.date) == 3)
              && t.hour == 20 && t.minute == 30
      ==> ResolveAndroid(league, Some(t)) == [Sky] && ResolveIos(league, Some(t)) == []
  {
    if league == "bl1" {
      Bl1Tables(t);
      Bl1Agreement(t);
    } else {
      OtherLeaguesAgree(league, t);
    }
  }
}
