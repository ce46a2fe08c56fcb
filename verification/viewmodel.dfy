/** The view model of both apps as a state machine: the UI state and the loaded matches,
    changed by week navigation, by league and season selection, and by the start, success
    and failure of a load. A load is an effect the machine asks for (`Fetch`); its completion
    comes back as `LoadSucceeded` or `LoadFailed`. */
module ViewModel {
  import opened Basics
  import opened Models
  import opened Week

  /** `LeagueOption(id, label)`; `label` is a Dafny keyword, so the text is `caption` here. */
  datatype LeagueOption = LeagueOption(id: string, caption: string)
  datatype SeasonOption = SeasonOption(id: string, caption: string)

  const Leagues: seq<LeagueOption> := [
    LeagueOption("bl1", "Bundesliga 1"),
    LeagueOption("bl2", "Bundesliga 2"),
    LeagueOption("bl3", "Bundesliga 3"),
    LeagueOption("dfb", "DFB-Pokal"),
    LeagueOption("ucl", "Champions League")
  ]

  const Seasons: seq<SeasonOption> := [
    SeasonOption("2025", "2025/26"),
    SeasonOption("2024", "2024/25"),
    SeasonOption("2023", "2023/24")
  ]

  /** `UiState` on Android; the published properties on iOS. */
  datatype UiState = UiState(
    isLoading: bool,
    error: Option<string>,
    selectedLeague: LeagueOption,
    selectedSeason: SeasonOption,
    weekOffset: int,
    weekLabel: string,
    dayBlocks: seq<DayBlock>)

  /** The UI state together with the matches of the last successful load. */
  datatype State = State(ui: UiState, allMatches: seq<OpenLigaMatch>)

  /** What the view model reads from outside: the platform, its time functions and today's
      date in Europe/Berlin. */
  datatype Context = Context(platform: Platform, env: TimeEnv, today: int)

  /** A request to load the matches of a league and season. */
  datatype Fetch = Fetch(league: string, season: string)

  /** A state change and the load it starts, if any. */
  datatype Step = Step(state: State, fetch: Option<Fetch>)

  /** The failure of a load: Kotlin's nullable `Throwable.message` and Swift's
      `localizedDescription`. */
  datatype Failure = Failure(message: Option<string>, description: string)

  const UnknownError := "Unbekannter Fehler"

  const InitialUi := UiState(false, None, Leagues[0], Seasons[0], 0, "", [])

  const Initial := State(InitialUi, [])

  /** The week the state shows is the one its offset, league and matches determine. */
  predicate ShowsWeek(c: Context, s: State) {
    var monday := WindowMonday(c.platform, c.today, s.ui.weekOffset);
    s.ui.weekLabel == WeekLabel(monday)
    && s.ui.dayBlocks == WeekBlocks(c.platform, c.env, s.ui.selectedLeague.id, c.today, monday, s.allMatches)
  }

  /** Everything but the derived week (label and blocks) and the offset agrees. */
  predicate SameButWeek(a: State, b: State) {
    a.allMatches == b.allMatches
    && a.ui.isLoading == b.ui.isLoading
    && a.ui.error == b.ui.error
    && a.ui.selectedLeague == b.ui.selectedLeague
    && a.ui.selectedSeason == b.ui.selectedSeason
  }

  /** `recalcWeek`: derive the label and the day blocks of the week at the current offset. */
  function Recalc(c: Context, s: State): (r: State)
    ensures ShowsWeek(c, r)
    ensures SameButWeek(r, s) && r.ui.weekOffset == s.ui.weekOffset
  {
    var monday := WindowMonday(c.platform, c.today, s.ui.weekOffset);
    s.(ui := s.ui.(
      weekLabel := WeekLabel(monday),
      dayBlocks := WeekBlocks(c.platform, c.env, s.ui.selectedLeague.id, c.today, monday, s.allMatches)))
  }

  function WithOffset(s: State, weekOffset: int): State {
    s.(ui := s.ui.(weekOffset := weekOffset))
  }

  /** `previousWeek`. */
  function PreviousWeek(c: Context, s: State): (r: State)
    ensures r.ui.weekOffset == s.ui.weekOffset - 1
    ensures SameButWeek(r, s) && ShowsWeek(c, r)
  {
    Recalc(c, WithOffset(s, s.ui.weekOffset - 1))
  }

  /** `nextWeek`. */
  function NextWeek(c: Context, s: State): (r: State)
    ensures r.ui.weekOffset == s.ui.weekOffset + 1
    ensures SameButWeek(r, s) && ShowsWeek(c, r)
  {
    Recalc(c, WithOffset(s, s.ui.weekOffset + 1))
  }

  /** `goToCurrentWeek` / `currentWeek`. */
  function CurrentWeek(c: Context, s: State): (r: State)
    ensures r.ui.weekOffset == 0
    ensures SameButWeek(r, s) && ShowsWeek(c, r)
  {
    Recalc(c, WithOffset(s, 0))
  }

  /** The start of `loadMatches` / `reload`: loading, no error, fetch the selection. */
  function StartLoad(s: State): (r: Step)
    ensures r.state.ui.isLoading && r.state.ui.error.None?
    ensures r.fetch == Some(Fetch(s.ui.selectedLeague.id, s.ui.selectedSeason.id))
    ensures r.state.allMatches == s.allMatches && r.state.ui.dayBlocks == s.ui.dayBlocks
    ensures r.state.ui.weekLabel == s.ui.weekLabel && r.state.ui.weekOffset == s.ui.weekOffset
    ensures r.state.ui.selectedLeague == s.ui.selectedLeague && r.state.ui.selectedSeason == s.ui.selectedSeason
  {
    Step(s.(ui := s.ui.(isLoading := true, error := None)), Some(Fetch(s.ui.selectedLeague.id, s.ui.selectedSeason.id)))
  }

  /** The Android view model's `init`; the iOS view starts from the same state and loads on
      appearing (`OnAppear`). */
  function Launch(): (r: Step)
    ensures r.fetch == Some(Fetch("bl1", "2025"))
    ensures r.state.ui.isLoading && r.state.ui.weekOffset == 0 && r.state.ui.dayBlocks == []
  {
    StartLoad(Initial)
  }

  /** `onLeagueChanged` / `changeLeague`. */
  function LeagueChanged(s: State, league: LeagueOption): (r: Step)
    ensures r.state.ui.selectedLeague == league && r.state.ui.selectedSeason == s.ui.selectedSeason
    ensures r.state.ui.weekOffset == 0
    ensures r.fetch == Some(Fetch(league.id, s.ui.selectedSeason.id))
    ensures r.state.ui.isLoading && r.state.ui.error.None?
    ensures r.state.allMatches == s.allMatches && r.state.ui.dayBlocks == s.ui.dayBlocks
    ensures r.state.ui.weekLabel == s.ui.weekLabel
  {
    StartLoad(s.(ui := s.ui.(selectedLeague := league, weekOffset := 0)))
  }

  /** `onSeasonChanged` / `changeSeason`. */
  function SeasonChanged(s: State, season: SeasonOption): (r: Step)
    ensures r.state.ui.selectedSeason == season && r.state.ui.selectedLeague == s.ui.selectedLeague
    ensures r.state.ui.weekOffset == 0
    ensures r.fetch == Some(Fetch(s.ui.selectedLeague.id, season.id))
    ensures r.state.ui.isLoading && r.state.ui.error.None?
    ensures r.state.allMatches == s.allMatches && r.state.ui.dayBlocks == s.ui.dayBlocks
    ensures r.state.ui.weekLabel == s.ui.weekLabel
  {
    StartLoad(s.(ui := s.ui.(selectedSeason := season, weekOffset := 0)))
  }

  /** A load returned `matches`. Android clears the error again; iOS leaves it as the start of
      the load set it. */
  function LoadSucceeded(c: Context, s: State, matches: seq<OpenLigaMatch>): (r: State)
    ensures r.allMatches == matches && !r.ui.isLoading
    ensures c.platform == Android ==> r.ui.error.None?
    ensures c.platform == Ios ==> r.ui.error == s.ui.error
    ensures ShowsWeek(c, r) && r.ui.weekOffset == s.ui.weekOffset
    ensures r.ui.selectedLeague == s.ui.selectedLeague && r.ui.selectedSeason == s.ui.selectedSeason
  {
    var ui := match c.platform
      case Android => s.ui.(isLoading := false, error := None)
      case Ios => s.ui.(isLoading := false);
    Recalc(c, State(ui, matches))
  }

  /** A load failed: the error is shown; the matches and the week on display stay. */
  function LoadFailed(p: Platform, s: State, f: Failure): (r: State)
    ensures !r.ui.isLoading
    ensures p == Android ==> r.ui.error == Some(f.message.GetOr(UnknownError))
    ensures p == Ios ==> r.ui.error == Some(f.description)
    ensures r.allMatches == s.allMatches && r.ui.dayBlocks == s.ui.dayBlocks && r.ui.weekLabel == s.ui.weekLabel
    ensures r.ui.weekOffset == s.ui.weekOffset && r.ui.selectedLeague == s.ui.selectedLeague
    ensures r.ui.selectedSeason == s.ui.selectedSeason
  {
    var error := match p
      case Android => f.message.GetOr(UnknownError)
      case Ios => f.description;
    s.(ui := s.ui.(isLoading := false, error := Some(error)))
  }

  /** `onAppear` on iOS: load only while no week has been shown. */
  function OnAppear(s: State): (r: Step)
    ensures r.fetch.Some? <==> s.ui.dayBlocks == []
    ensures r.fetch.None? ==> r.state == s
    ensures r.fetch.Some? ==> r == StartLoad(s)
    ensures r.fetch.Some? ==> r.fetch == Some(Fetch(s.ui.selectedLeague.id, s.ui.selectedSeason.id))
    ensures r.fetch.Some? ==> r.state.ui.isLoading && r.state.ui.error.None? && r.state.allMatches == s.allMatches
  {
    if s.ui.dayBlocks == [] then StartLoad(s) else Step(s, None)
  }

  /** Going back a week and forward again shows the week one started from. */
  lemma NextUndoesPrevious(c: Context, s: State)
    ensures NextWeek(c, PreviousWeek(c, s)) == Recalc(c, s)
    ensures PreviousWeek(c, NextWeek(c, s)) == Recalc(c, s)
  {
  }

  /** Deriving the week twice changes nothing. */
  lemma RecalcIdempotent(c: Context, s: State)
    ensures Recalc(c, Recalc(c, s)) == Recalc(c, s)
  {
  }

  /** A state that shows its week is left as it is by re-deriving it. */
  lemma RecalcFixesShownWeek(c: Context, s: State)
    requires ShowsWeek(c, s)
    ensures Recalc(c, s) == s
  {
  }

  /** Loading and failing never disturb the week on display: they keep `ShowsWeek`. */
  lemma LoadKeepsShownWeek(c: Context, s: State, f: Failure)
    requires ShowsWeek(c, s)
    ensures ShowsWeek(c, StartLoad(s).state)
    ensures ShowsWeek(c, LoadFailed(c.platform, s, f))
  {
  }

  /** Changing the league and then loading successfully shows the current week of the new
      league, without error, on both platforms. */
  lemma LeagueChangeThenLoad(c: Context, s: State, league: LeagueOption, matches: seq<OpenLigaMatch>)
    ensures var r := LoadSucceeded(c, LeagueChanged(s, league).state, matches);
      r.ui.weekOffset == 0 && r.ui.selectedLeague == league && r.ui.error.None? && !r.ui.isLoading
      && r.ui.dayBlocks
        == WeekBlocks(c.platform, c.env, league.id, c.today, StartOfCurrentWeek(c.today), matches)
  {
    WindowStartsOnMonday(c.platform, c.today, 0);
  }

  /** A failure after a league change keeps the previous league's matches and blocks: the
      display is stale until a load succeeds. */
  lemma LeagueChangeThenFailure(c: Context, s: State, league: LeagueOption, f: Failure)
    ensures var r := LoadFailed(c.platform, LeagueChanged(s, league).state, f);
      r.allMatches == s.allMatches && r.ui.dayBlocks == s.ui.dayBlocks
      && r.ui.selectedLeague == league && r.ui.error.Some? && !r.ui.isLoading
  {
  }

  /** The current week marks today's block and no other. */
  lemma CurrentWeekMarksToday(c: Context, s: State)
    ensures var blocks := CurrentWeek(c, s).ui.dayBlocks;
      |blocks| == 7
      && (forall i :: 0 <= i < 7 ==> (blocks[i].isToday <==> i == c.today - StartOfCurrentWeek(c.today)))
  {
    TodayMarked(c.platform, c.env, CurrentWeek(c, s).ui.selectedLeague.id, c.today, 0, s.allMatches);
  }
}
