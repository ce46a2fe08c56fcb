# sportkalender scheduling core in Dafny

This project models the scheduling logic of the sportkalender football-schedule app. The app
exists twice, as an Android app in Kotlin and as an iOS app in Swift, and the model covers
both copies side by side. A `Platform` value (`Android` or `Ios`) selects where they differ.

The model covers:

- **TV rights** (`TvRights`). Each league has a rule table. A lookup takes the kickoff's
  weekday, hour and minute in Europe/Berlin. It returns the channels of the first exact
  row, else those of the first wildcard row (weekday -1), else nothing. Android numbers
  weekdays with Sunday = 0. iOS uses the Gregorian numbering with Sunday = 1. The iOS bl1
  table lacks Android's Tuesday and Wednesday 20:30 rows.
- **Match decoding and normalisation** (`Models`, `Scores`).
  - JSON objects are decoded with the lower-camel and PascalCase key spellings. Android
    (Gson) reads every member with either name in document order: the last one is kept,
    and any one that does not decode fails the object. iOS reads the lower-camel key when
    it is present and not null, else the PascalCase key, and never looks at the other. A
    key that an object repeats is read at its first occurrence on iOS.
  - A string field takes a JSON string on both platforms; Gson also takes a number (as
    its decimal text) or a boolean ("true", "false"). An integer field takes a JSON number
    that fits the platform's `Int`: 32 bits in Kotlin, 64 bits in Swift.
  - The kickoff is the UTC string when it parses. Otherwise it is the offset-less local
    string read as Berlin time. Otherwise there is none.
  - The final score comes from the results sorted by descending result type (a missing
    type counts as 0). It is the first result with both point values, or "vs" when there
    is none.
- **The week window** (`Calendar`, `Sorting`, `Week`).
  - The window has seven day blocks, starting on the Monday of today's week shifted by
    `7·weekOffset` days.
  - Each block holds the matches whose Berlin kickoff date is that day. They are sorted
    stably by kickoff and turned into display items: `HH:mm` or "--:--", team names or
    "Unbekannt", score, TV channels, and on iOS an item id.
  - Each block carries its German weekday name, its `dd.MM.yyyy` label and its `isToday`
    flag. The week label is "Monday-label - Sunday-label".
- **The view model** (`ViewModel`). This is a state machine over the UI state and the
  loaded matches:
  - week navigation (previous, next, current);
  - league and season changes, which reset the offset and request a load (`Fetch`);
  - the start, success and failure of a load;
  - iOS `onAppear`.
- **Row flattening** (`Rows`). `buildScheduleRows` turns day blocks into header,
  empty-day and match rows with string keys. `weekMatchCount` is also modelled.

Dates are epoch days (0 = 1970-01-01). The `dd.MM.yyyy` label goes through a proleptic
Gregorian conversion that uses only integer arithmetic. "Today" is a parameter. The
platform time services are kept as opaque functions in a `TimeEnv` value:
- parsing an ISO-8601 string with an offset into an instant;
- parsing an offset-less `yyyy-MM-dd'T'HH:mm:ss` string;
- placing a Berlin wall-clock time on the time line;
- reading an instant on the Berlin wall clock.

Some consequences of the code that are easy to miss:
- A bl1 kickoff on Saturday at 20:30 resolves to no channels. The only 20:30 Sky row of
  bl1 is Friday's, and bl1 has no wildcard row (`TvRights.Bl1SaturdayEvening`).
- A missing team name is shown as "Unbekannt" on both platforms, never as another word.
- A field value that the platform's decoder rejects fails the whole load
  (`Models.DecodeMatches`). Which values are rejected differs: Gson turns numbers and
  booleans into text, and it rejects an ill-typed PascalCase member that iOS never reads
  (`Models.ShadowedSpellingIsChecked`). Among the field values, only missing fields and
  unparseable timestamps degrade to placeholders.
- A null entry in the matches array fails the load on iOS (`Models.NullMatchFailsLoad`).
  On Android it is not a decoding error at all: Gson keeps a null match, and the app then
  crashes in `recalcWeek` instead of showing an error (see "Left out").

## Model

| member | source | states |
|---|---|---|
| Basics.FirstIndex | android-native/app/src/main/java/de/sportkalender/nativeapp/domain/TvRights.kt:45-48 | `firstOrNull`: the found index satisfies the test and no earlier one does; nothing is found exactly when no element satisfies it |
| Basics.Filter | android-native/app/src/main/java/de/sportkalender/nativeapp/SportkalenderViewModel.kt:129-133 | every kept match is one of the input matches and passes the test; every input match that passes the test is kept |
| Basics.FilterMultiplicity | android-native/app/src/main/java/de/sportkalender/nativeapp/SportkalenderViewModel.kt:129-133 | every element passing the test is kept as many times as it occurs in the input; every other element is dropped |
| Basics.FilterAppend | android-native/app/src/main/java/de/sportkalender/nativeapp/SportkalenderViewModel.kt:129-133 | filtering a concatenation filters each part and keeps them in order, so the kept elements keep their input order |
| Basics.FilterCongruent | ios-native/Sources/SportkalenderiOS/ViewModel/SportkalenderViewModel.swift:105-109 | two tests that agree on every element keep the same elements |
| Basics.FilterCountSplit | android-native/app/src/main/java/de/sportkalender/nativeapp/SportkalenderViewModel.kt:127-133 | when a test is the disjoint union of two others, the number of kept elements is the sum of the two counts |
| Basics.MapResult | ios-native/Sources/SportkalenderiOS/Networking/OpenLigaService.swift:8 | decoding an array succeeds exactly when every element decodes, and then gives the elements' values in order; otherwise the error is that of the first element that fails |
| Text.DecimalRoundTrip | android-native/app/src/main/java/de/sportkalender/nativeapp/SportkalenderViewModel.kt:170 | the decimal text of a number reads back as that number |
| Text.IntToDecimalInjective | android-native/app/src/main/java/de/sportkalender/nativeapp/SportkalenderViewModel.kt:170 | different integers (negative ones included) have different decimal texts |
| Text.ZeroPadRoundTrip | android-native/app/src/main/java/de/sportkalender/nativeapp/SportkalenderViewModel.kt:125 | a zero-padded date field reads back as its number |
| Calendar.IsoWeekday | android-native/app/src/main/java/de/sportkalender/nativeapp/SportkalenderViewModel.kt:163 | `dayOfWeek.value` lies in 1..7 and is 1 exactly on the Mondays (1970-01-05 and every seventh day from it) |
| Calendar.AndroidWeekday | android-native/app/src/main/java/de/sportkalender/nativeapp/domain/TvRights.kt:41 | `dayOfWeek.value % 7`: Sunday is 0, and every other day keeps its ISO number, so it is never the wildcard -1 |
| Calendar.GregorianWeekday | ios-native/Sources/SportkalenderiOS/Domain/TvRights.swift:35-37 | the Gregorian weekday component: Sunday is 1, and every other day is its ISO number plus one; on every day it is the Android weekday number plus one |
| Calendar.CivilFromDays | android-native/app/src/main/java/de/sportkalender/nativeapp/SportkalenderViewModel.kt:149 | the month of a date lies in 1..12 and its day in 1..31 |
| Calendar.CivilRoundTrip | android-native/app/src/main/java/de/sportkalender/nativeapp/SportkalenderViewModel.kt:149 | the Gregorian date of a day converts back to the same day |
| Calendar.FourDigitYears | android-native/app/src/main/java/de/sportkalender/nativeapp/SportkalenderViewModel.kt:125 | the days from 0001-01-01 to 9999-12-31 have years of four digits |
| Calendar.DateLabel | android-native/app/src/main/java/de/sportkalender/nativeapp/SportkalenderViewModel.kt:125 | within the years 1 to 9999 a `dd.MM.yyyy` label has ten characters with dots at positions 2 and 5 |
| Calendar.DateLabelRoundTrip | android-native/app/src/main/java/de/sportkalender/nativeapp/SportkalenderViewModel.kt:149 | within the years 1 to 9999, reading the day, month and year back out of a date label gives the date again |
| Calendar.DateLabelInjective | ios-native/Sources/SportkalenderiOS/ViewModel/SportkalenderViewModel.swift:125-126 | within the years 1 to 9999, different days have different labels, so the label can serve as the block's identity |
| Calendar.TimeLabel | android-native/app/src/main/java/de/sportkalender/nativeapp/SportkalenderViewModel.kt:139 | an `HH:mm` label is five characters, two digits, a colon and two digits, and its two fields read back as the hour and the minute |
| Calendar.DayLabel | android-native/app/src/main/java/de/sportkalender/nativeapp/SportkalenderViewModel.kt:148 | the day name is one of the seven German weekday names; it is "Montag" exactly on Mondays and "Sonntag" exactly on Sundays |
| Sorting.Insert | android-native/app/src/main/java/de/sportkalender/nativeapp/SportkalenderViewModel.kt:134 | inserting into a sorted list keeps it sorted and adds exactly the one element |
| Sorting.SortBy | android-native/app/src/main/java/de/sportkalender/nativeapp/SportkalenderViewModel.kt:134 | `sortedBy` returns a permutation of its input that is ordered by the key |
| Sorting.SortByStable | android-native/app/src/main/java/de/sportkalender/nativeapp/SportkalenderViewModel.kt:134 | elements with equal keys keep their input order |
| Sorting.SortBySortedIdentity | android-native/app/src/main/java/de/sportkalender/nativeapp/SportkalenderViewModel.kt:134 | sorting a list that is already ordered changes nothing |
| Sorting.SortByCongruent | ios-native/Sources/SportkalenderiOS/ViewModel/SportkalenderViewModel.swift:110 | two keys that agree on every element of the list sort it the same way |
| TvRights.Lookup | android-native/app/src/main/java/de/sportkalender/nativeapp/domain/TvRights.kt:45-49 | the channels found are empty or the list of one row of the table |
| TvRights.LookupFirstMatch | android-native/app/src/main/java/de/sportkalender/nativeapp/domain/TvRights.kt:45-49 | the result is the channels of the first exact row, verbatim; without one, those of the first wildcard row; without either, nothing; it is always empty or one row's list |
| TvRights.ResolveAndroid | android-native/app/src/main/java/de/sportkalender/nativeapp/domain/TvRights.kt:38-40 | a missing kickoff, or a league without a table, gives no channels |
| TvRights.ResolveIos | ios-native/Sources/SportkalenderiOS/Domain/TvRights.swift:33-34 | a missing kickoff, or a league without rules, gives no channels |
| TvRights.AndroidNeverExactWildcard | android-native/app/src/main/java/de/sportkalender/nativeapp/domain/TvRights.kt:41-45 | no real kickoff matches a wildcard row exactly, so wildcards only ever act as the fallback |
| TvRights.WildcardLeagues | android-native/app/src/main/java/de/sportkalender/nativeapp/domain/TvRights.kt:30-35 | every kickoff of "dfb" gives [Sky, ARD/ZDF] and every kickoff of "ucl" gives [DAZN, Prime, ZDF], on both platforms |
| TvRights.LeaguesWithoutTable | android-native/app/src/main/java/de/sportkalender/nativeapp/domain/TvRights.kt:40 | "bl3" has no channels at any time on either platform |
| TvRights.Bl1SaturdayAfternoon | android-native/app/src/main/java/de/sportkalender/nativeapp/domain/TvRights.kt:16 | bl1 on Saturday at 15:30 gives [Sky, DAZN Konf.] on both platforms |
| TvRights.Bl1SaturdayEvening | android-native/app/src/main/java/de/sportkalender/nativeapp/domain/TvRights.kt:14-23 | bl1 on Saturday at 20:30 gives no channels on either platform |
| TvRights.IosTablesAreShifted | ios-native/Sources/SportkalenderiOS/Domain/TvRights.swift:10-31 | each iOS table is the Android table with every weekday moved up by one; for bl1 the last two rows (Tuesday and Wednesday 20:30) are left out |
| TvRights.LookupShifted | ios-native/Sources/SportkalenderiOS/Domain/TvRights.swift:41-44 | looking a weekday up in a table with shifted weekdays is looking the unshifted weekday up in the original |
| TvRights.Bl1WithoutMidweek | android-native/app/src/main/java/de/sportkalender/nativeapp/domain/TvRights.kt:21-22 | dropping the two midweek rows changes the bl1 lookup at no other time |
| TvRights.Bl1Midweek | android-native/app/src/main/java/de/sportkalender/nativeapp/domain/TvRights.kt:21-22 | on Tuesday and Wednesday at 20:30 the Android bl1 table gives [Sky] and the iOS one gives nothing |
| TvRights.OtherLeaguesAgree | ios-native/Sources/SportkalenderiOS/Domain/TvRights.swift:10-45 | for every league but bl1, both apps resolve every kickoff the same way |
| TvRights.CrossPlatformAgreement | ios-native/Sources/SportkalenderiOS/Domain/TvRights.swift:10-45 | the apps agree on every league and kickoff except bl1 on Tuesday and Wednesday at 20:30, where Android shows [Sky] and iOS nothing |
| Models.LastWith | android-native/app/src/main/java/de/sportkalender/nativeapp/model/Models.kt:10-22 | Gson's reading of a field with alternate names: the value of the last member carrying either name, or nothing when no member does |
| Models.FirstWith | ios-native/Sources/SportkalenderiOS/Models/Models.swift:24-25 | Foundation's reading of a repeated key: the value of the first member carrying the key, or nothing when no member does |
| Models.Pick | android-native/app/src/main/java/de/sportkalender/nativeapp/model/Models.kt:10-22 | the value a field is read from is never JSON null and is the value of a member spelling the field |
| Models.Field | ios-native/Sources/SportkalenderiOS/Models/Models.swift:23-35 | iOS: nothing when no spelling carries a value, else success exactly when the picked value decodes; Android: success exactly when no non-null member spelling the field fails to decode, else the error of the first one that does; on success the field is the picked value decoded, or nothing |
| Models.AsString | android-native/app/src/main/java/de/sportkalender/nativeapp/model/Models.kt:14 | a string field accepts a JSON string as it is on both platforms; Android also accepts a number, as decimal text that reads back as the number, and a boolean as "true" or "false"; nothing else is accepted |
| Models.AsInt | ios-native/Sources/SportkalenderiOS/Models/Models.swift:69-71 | an integer field accepts exactly the JSON numbers the platform's `Int` can hold (32 bits on Android, 64 bits on iOS), with their value |
| Models.DecodeTeam | ios-native/Sources/SportkalenderiOS/Models/Models.swift:61-65 | a team decodes exactly when it is an object whose team-name field decodes, and the team's name is that field's decoded value |
| Models.DecodeResult | ios-native/Sources/SportkalenderiOS/Models/Models.swift:82-90 | a result decodes exactly when it is an object whose result-type and two points fields decode, and each field of the result is that field's decoded value |
| Models.DecodeResults | ios-native/Sources/SportkalenderiOS/Models/Models.swift:33-34 | a results array decodes exactly when every element decodes as a result; the results are then the elements' values, in order and of the same number |
| Models.DecodeMatch | ios-native/Sources/SportkalenderiOS/Models/Models.swift:23-35 | a match object decodes exactly when it is an object each of whose five fields decodes, and each field of the match is that field's decoded value |
| Models.EmptyMatchObject | ios-native/Sources/SportkalenderiOS/Models/Models.swift:23-35 | an object without any non-null match field decodes, on both platforms, to a match with every field absent |
| Models.ShadowedSpellingIsChecked | android-native/app/src/main/java/de/sportkalender/nativeapp/model/Models.kt:47 | a boolean under "PointsTeam1" followed by 2 under "pointsTeam1" fails on Android and gives points 2 on iOS |
| Models.IosFirstKeyWins | ios-native/Sources/SportkalenderiOS/Models/Models.swift:25-26 | on iOS a non-null value at the first occurrence of the lower-camel key is taken, whatever later occurrences or the PascalCase key hold |
| Models.IosAlternateFallback | ios-native/Sources/SportkalenderiOS/Models/Models.swift:25-34 | on iOS, when the lower-camel key is absent or null, the first occurrence of the PascalCase key is used |
| Models.AndroidLastSpellingWins | android-native/app/src/main/java/de/sportkalender/nativeapp/model/Models.kt:10-22 | on Android the spelling that comes last in the document wins |
| Models.MissingFieldIsNothing | ios-native/Sources/SportkalenderiOS/Models/Models.swift:25-34 | a field that is missing, or null under both spellings, decodes to nothing on both platforms, whatever its type |
| Models.PickAgreement | android-native/app/src/main/java/de/sportkalender/nativeapp/model/Models.kt:10-22 | when an object spells a field at most once, Gson and the iOS decoder read the same value |
| Models.FieldAgreement | android-native/app/src/main/java/de/sportkalender/nativeapp/model/Models.kt:10-22 | a field spelled at most once, by a member both decoders read alike, decodes the same on both platforms |
| Models.StringAgreement | android-native/app/src/main/java/de/sportkalender/nativeapp/model/Models.kt:14 | the two string decoders agree on every value that is not a number or a boolean |
| Models.IntAgreement | android-native/app/src/main/java/de/sportkalender/nativeapp/model/Models.kt:46-48 | the two integer decoders agree on every value that is not a number beyond 32 bits |
| Models.TeamAgreement | ios-native/Sources/SportkalenderiOS/Models/Models.swift:61-65 | a team object that spells `teamName` at most once, and not with a number or a boolean, decodes the same on both platforms |
| Models.ResultAgreement | ios-native/Sources/SportkalenderiOS/Models/Models.swift:82-90 | a result object that spells each field at most once, with numbers within 32 bits, decodes the same on both platforms |
| Models.MatchAgreement | ios-native/Sources/SportkalenderiOS/Models/Models.swift:23-35 | a match object that spells every field at most once, nested objects included, holds no number or boolean in a string field and no integer beyond 32 bits, decodes to the same match on both platforms |
| Models.DecodeMatches | ios-native/Sources/SportkalenderiOS/Networking/OpenLigaService.swift:8 | the payload decodes exactly when it is an array whose every element decodes; the matches are then the elements' values in order |
| Models.NullMatchFailsLoad | ios-native/Sources/SportkalenderiOS/Models/Models.swift:24 | a matches array with a null entry anywhere fails to decode, so the load fails |
| Models.Kickoff | android-native/app/src/main/java/de/sportkalender/nativeapp/model/Models.kt:24-38 | a UTC string that parses gives the kickoff; otherwise a local string that parses, read as Berlin time; otherwise there is none |
| Models.UtcWins | android-native/app/src/main/java/de/sportkalender/nativeapp/model/Models.kt:26-31 | with a UTC string that parses, the local string does not matter |
| Models.NoKickoff | ios-native/Sources/SportkalenderiOS/Models/Models.swift:37-50 | there is no kickoff exactly when neither string is present and parses |
| Models.BerlinKickoff | android-native/app/src/main/java/de/sportkalender/nativeapp/model/Models.kt:28 | the Berlin wall-clock kickoff exists exactly when the kickoff instant does, and is that instant read on the Berlin clock |
| Models.NameOr | android-native/app/src/main/java/de/sportkalender/nativeapp/SportkalenderViewModel.kt:140-141 | the team's name when the team and its name are present; the fallback ("Unbekannt", or "x" and "y" in the iOS id) otherwise |
| Scores.FirstComplete | android-native/app/src/main/java/de/sportkalender/nativeapp/SportkalenderViewModel.kt:169 | the chosen result is the first complete one of the list: complete, and no result before it is complete; there is none exactly when no result has both point values |
| Scores.FinalResult | android-native/app/src/main/java/de/sportkalender/nativeapp/SportkalenderViewModel.kt:166-169 | without a results list there is no result; with one, there is none exactly when no result is complete, and otherwise it is a complete result from the list |
| Scores.BestCompleteIsHighestEarliest | android-native/app/src/main/java/de/sportkalender/nativeapp/SportkalenderViewModel.kt:166-171 | the choice is a complete result that no complete result outranks and that no earlier complete result ties; nothing exactly when no result is complete |
| Scores.FinalResultIsBest | android-native/app/src/main/java/de/sportkalender/nativeapp/SportkalenderViewModel.kt:166-171 | sorting by descending type and taking the first complete result gives the complete result of highest type, the earliest among ties |
| Scores.FinalScore | android-native/app/src/main/java/de/sportkalender/nativeapp/SportkalenderViewModel.kt:137 | without a complete result the score is "vs"; with one, it is the "a:b" label of the chosen result's points |
| Scores.ScoreLabelUnambiguous | ios-native/Sources/SportkalenderiOS/ViewModel/SportkalenderViewModel.swift:140-141 | an "a:b" label determines both point values and is never "vs" |
| Scores.HigherTypeWins | ios-native/Sources/SportkalenderiOS/ViewModel/SportkalenderViewModel.swift:136-138 | with complete results of types 1 and 3, the type-3 points are shown whatever the order of the results |
| Week.StartOfCurrentWeek | android-native/app/src/main/java/de/sportkalender/nativeapp/SportkalenderViewModel.kt:161-164 | the start of the week is a Monday, never after today and at most six days before it |
| Week.StartOfCurrentWeekUnique | android-native/app/src/main/java/de/sportkalender/nativeapp/SportkalenderViewModel.kt:161-164 | it is the only Monday in that range |
| Week.MondayOffset | ios-native/Sources/SportkalenderiOS/ViewModel/SportkalenderViewModel.swift:80-81 | for a Gregorian weekday the offset lies in -6..0 and moves the day onto a Monday |
| Week.WindowMonday | android-native/app/src/main/java/de/sportkalender/nativeapp/SportkalenderViewModel.kt:123 | on both platforms the window starts `7·weekOffset` days after the Monday of the current week |
| Week.MondayOffsetAgrees | ios-native/Sources/SportkalenderiOS/ViewModel/SportkalenderViewModel.swift:80-81 | the iOS `mondayOffset` lands on the same Monday as the Android formula |
| Week.WindowStartsOnMonday | ios-native/Sources/SportkalenderiOS/ViewModel/SportkalenderViewModel.swift:82 | on both platforms the window starts on the Monday `7·weekOffset` days from the current week's Monday, and the next window starts seven days later |
| Week.WindowsDisjoint | android-native/app/src/main/java/de/sportkalender/nativeapp/SportkalenderViewModel.kt:123-128 | windows at different offsets share no day |
| Week.WeekdayInWeek | android-native/app/src/main/java/de/sportkalender/nativeapp/SportkalenderViewModel.kt:127-128 | day `i` of a week that starts on Monday has ISO weekday `i + 1` |
| Week.DayMatches | android-native/app/src/main/java/de/sportkalender/nativeapp/SportkalenderViewModel.kt:129-134 | a day never has more matches than were loaded, and each is a loaded match kicking off on that day in Berlin |
| Week.DayMatchesOfDate | android-native/app/src/main/java/de/sportkalender/nativeapp/SportkalenderViewModel.kt:129-134 | a day's matches are exactly the loaded matches whose Berlin kickoff date is that day, each as often as it was loaded, with kickoffs never decreasing |
| Week.DayMatchesStable | android-native/app/src/main/java/de/sportkalender/nativeapp/SportkalenderViewModel.kt:134 | matches with the same kickoff keep their loaded order |
| Week.AtMostOneDay | android-native/app/src/main/java/de/sportkalender/nativeapp/SportkalenderViewModel.kt:129-133 | a match is among the matches of at most one day, and a match without kickoff is among none |
| Week.DayMatchesCongruent | ios-native/Sources/SportkalenderiOS/ViewModel/SportkalenderViewModel.swift:105-110 | two time libraries that give every loaded match the same kickoff select and order the same matches for a day |
| Week.KickoffLabel | android-native/app/src/main/java/de/sportkalender/nativeapp/SportkalenderViewModel.kt:139 | the label is "--:--" exactly when there is no kickoff |
| Week.MakeItem | android-native/app/src/main/java/de/sportkalender/nativeapp/SportkalenderViewModel.kt:135-144 | an item has an id exactly on iOS, and shows "--:--" exactly when the match has no kickoff |
| Week.ItemContents | android-native/app/src/main/java/de/sportkalender/nativeapp/SportkalenderViewModel.kt:135-144 | the item of a match on the day shows its Berlin `HH:mm` time (never "--:--"), the team names with "Unbekannt" fallback, the final score and the TV channels of its Berlin kickoff; on iOS its id is the date label, both team names and the time joined by dashes, and Android gives it no id |
| Week.WeekBlocks | android-native/app/src/main/java/de/sportkalender/nativeapp/SportkalenderViewModel.kt:127 | a week has seven day blocks |
| Week.BlockDates | android-native/app/src/main/java/de/sportkalender/nativeapp/SportkalenderViewModel.kt:147-152 | block `i` is labelled with the date `monday + i` and is marked as today exactly when that date is today |
| Week.WeekShape | android-native/app/src/main/java/de/sportkalender/nativeapp/SportkalenderViewModel.kt:147-156 | the blocks run Montag to Sonntag over consecutive dates, and the week label spans the first and the last block |
| Week.TodayMarked | android-native/app/src/main/java/de/sportkalender/nativeapp/SportkalenderViewModel.kt:150 | at offset 0 exactly today's block is marked; at any other offset no block is |
| Week.BlockItems | android-native/app/src/main/java/de/sportkalender/nativeapp/SportkalenderViewModel.kt:127-146 | block `i` holds one item per match of its date, in kickoff order |
| Week.ItemsAgree | ios-native/Sources/SportkalenderiOS/ViewModel/SportkalenderViewModel.swift:111-122 | for every league but bl1 both apps build the same item from a match, apart from the iOS id, when their time libraries give the match the same kickoff |
| Week.PlatformsAgree | ios-native/Sources/SportkalenderiOS/ViewModel/SportkalenderViewModel.swift:102-132 | for every league but bl1 both apps build the same day block, apart from the iOS item ids, when their time libraries give every loaded match the same kickoff |
| Rows.BuildScheduleRows | android-native/app/src/main/java/de/sportkalender/nativeapp/MainActivity.kt:75-100 | a list of days gives at least two rows per day, and no rows exactly when there are no days |
| Rows.DayRowsShape | android-native/app/src/main/java/de/sportkalender/nativeapp/MainActivity.kt:77-97 | a day's rows are its header, then one match row per match in order or exactly one empty-day row; every row carries the day's `isToday` |
| Rows.BuildAppend | android-native/app/src/main/java/de/sportkalender/nativeapp/MainActivity.kt:75-100 | the rows of two lists of days are the rows of the first followed by the rows of the second |
| Rows.DayRun | android-native/app/src/main/java/de/sportkalender/nativeapp/MainActivity.kt:77-98 | the rows of each day form one contiguous run, placed after the rows of the days before it |
| Rows.BuildSummary | android-native/app/src/main/java/de/sportkalender/nativeapp/MainActivity.kt:75-100 | the rows number Σ(1 + max(1, matches)); the headers list the days in order; the match rows hold all items in order; there is one empty row per day without matches; the match count is the number of match rows |
| Rows.MatchKeyIndex | android-native/app/src/main/java/de/sportkalender/nativeapp/MainActivity.kt:92 | two match keys of one day are equal only when their positions are |
| Rows.DayRowsDistinct | android-native/app/src/main/java/de/sportkalender/nativeapp/MainActivity.kt:79-96 | the keys of one day's rows are pairwise different |
| Rows.RowKeysDistinct | android-native/app/src/main/java/de/sportkalender/nativeapp/MainActivity.kt:75-100 | when the days have distinct ten-character date labels, all row keys are pairwise different |
| Rows.WeekRowKeysDistinct | android-native/app/src/main/java/de/sportkalender/nativeapp/MainActivity.kt:119 | the rows of any week within the years 1 to 9999 have pairwise different keys |
| Rows.WeekMatchCountBounds | android-native/app/src/main/java/de/sportkalender/nativeapp/MainActivity.kt:120 | the week's match count is 0 exactly when every day is empty, and no day has more matches than the week |
| Rows.WeekMatchCountOfWindow | android-native/app/src/main/java/de/sportkalender/nativeapp/MainActivity.kt:120 | the week's match count is the number of loaded matches whose Berlin kickoff date falls in the week |
| ViewModel.Recalc | android-native/app/src/main/java/de/sportkalender/nativeapp/SportkalenderViewModel.kt:121-159 | after `recalcWeek` the state shows the week its offset and league select; the matches, selection, loading flag and error are unchanged |
| ViewModel.PreviousWeek | android-native/app/src/main/java/de/sportkalender/nativeapp/SportkalenderViewModel.kt:83-87 | the offset goes down by one, the week shown follows it, nothing else changes and nothing is fetched |
| ViewModel.NextWeek | android-native/app/src/main/java/de/sportkalender/nativeapp/SportkalenderViewModel.kt:89-93 | the offset goes up by one, the week shown follows it, nothing else changes and nothing is fetched |
| ViewModel.CurrentWeek | ios-native/Sources/SportkalenderiOS/ViewModel/SportkalenderViewModel.swift:69-72 | the offset becomes 0, the week shown follows it, nothing else changes |
| ViewModel.StartLoad | android-native/app/src/main/java/de/sportkalender/nativeapp/SportkalenderViewModel.kt:100-105 | starting a load sets the loading flag, clears the error, fetches the selected league and season, and keeps the matches, blocks, week label, offset and selection |
| ViewModel.Launch | android-native/app/src/main/java/de/sportkalender/nativeapp/SportkalenderViewModel.kt:69-71 | the app starts loading bl1 of season 2025 at offset 0 with no blocks |
| ViewModel.LeagueChanged | android-native/app/src/main/java/de/sportkalender/nativeapp/SportkalenderViewModel.kt:73-76 | a league change selects the league, keeps the season, resets the offset, starts loading without error, fetches the new selection, and keeps the matches, blocks and week label |
| ViewModel.SeasonChanged | ios-native/Sources/SportkalenderiOS/ViewModel/SportkalenderViewModel.swift:53-57 | a season change selects the season, keeps the league, resets the offset, starts loading without error, fetches the new selection, and keeps the matches, blocks and week label |
| ViewModel.LoadSucceeded | android-native/app/src/main/java/de/sportkalender/nativeapp/SportkalenderViewModel.kt:107-111 | a successful load replaces the matches, ends loading, keeps the offset and selection, and shows the week; Android clears the error, iOS leaves it as it is |
| ViewModel.LoadFailed | android-native/app/src/main/java/de/sportkalender/nativeapp/SportkalenderViewModel.kt:112-117 | a failure ends loading and shows the message (Android, "Unbekannter Fehler" without one) or the description (iOS); matches, blocks, label, offset, league and season stay |
| ViewModel.OnAppear | ios-native/Sources/SportkalenderiOS/ViewModel/SportkalenderViewModel.swift:30-32 | appearing fetches exactly when no blocks are shown, and then starts the load of the current league and season as `reload()` does; otherwise it changes nothing |
| ViewModel.NextUndoesPrevious | android-native/app/src/main/java/de/sportkalender/nativeapp/SportkalenderViewModel.kt:83-93 | one week back and one forward (or the reverse) shows the week one started from |
| ViewModel.RecalcIdempotent | ios-native/Sources/SportkalenderiOS/ViewModel/SportkalenderViewModel.swift:74-133 | deriving the week twice gives the same state as deriving it once |
| ViewModel.RecalcFixesShownWeek | android-native/app/src/main/java/de/sportkalender/nativeapp/SportkalenderViewModel.kt:121-159 | a state that already shows its week is left unchanged by re-deriving it |
| ViewModel.LoadKeepsShownWeek | ios-native/Sources/SportkalenderiOS/ViewModel/SportkalenderViewModel.swift:34-45 | starting a load and a failed load both leave the shown week consistent with the state |
| ViewModel.LeagueChangeThenLoad | android-native/app/src/main/java/de/sportkalender/nativeapp/SportkalenderViewModel.kt:73-76 | a league change followed by a successful load shows the current week of the new league, without error |
| ViewModel.LeagueChangeThenFailure | ios-native/Sources/SportkalenderiOS/ViewModel/SportkalenderViewModel.swift:41-51 | a league change followed by a failure keeps the old league's matches and blocks under the new league |
| ViewModel.CurrentWeekMarksToday | ios-native/Sources/SportkalenderiOS/ViewModel/SportkalenderViewModel.swift:129 | the current week has seven blocks, and exactly today's is marked |

## Left out

- Networking (the repository, the Retrofit interface and `OpenLigaService`): a load is a
  `Fetch` request answered by `LoadSucceeded` or `LoadFailed`.
- Coroutine and `Task` concurrency. Overlapping loads, and the order in which their
  completions arrive, are not modelled; each completion is one sequential transition.
- The wall clock. `LocalDate.now` and `Date()` become the `today` parameter.
- The time-zone database and the timestamp grammars. Parsing, DST handling and the
  UTC-to-Berlin offset are the opaque functions of `TimeEnv`. Instants are whole seconds;
  sub-second precision is not modelled.
- Gson and `JSONDecoder` behaviour beyond what the decoders above describe. JSON numbers
  are integers in the model; fractional numbers and number literals that are not in
  shortest decimal form are not modelled.
- Models.AsInt: Gson also reads a JSON string holding an integer ("5") into an `Int`
  field; the model rejects it, as Swift does.
- Models.DecodeResults: a null element of the results array is a decoding error in the
  model, as on iOS. Gson keeps it as a null entry, and the Android app then fails in
  `finalScore` when it reads the entry's fields; that failure is not modelled.
- Week.PlatformsAgree: assumes that both platforms' time libraries give every loaded match
  the same kickoff. They need not: Java's `OffsetDateTime.parse` accepts fractional
  seconds, and `ISO8601DateFormatter` with its default options rejects them, so such a
  UTC string can fall back to the local string on iOS only. Week.ItemsAgree assumes the
  same for its one match. Both also assume the one date label of Calendar.DateLabel, so
  their agreement does not extend to weeks before 1582-10-15, where iOS prints Julian dates.
- Calendar.DateLabel: the label is that of the proleptic Gregorian calendar, which is what
  `DateTimeFormatter` prints for a `LocalDate` on Android (SportkalenderViewModel.kt:125). On
  iOS, `DateFormatter` with the Gregorian calendar (SportkalenderViewModel.swift:85-88) prints
  days before 1582-10-15 as Julian dates, so iOS labels, week labels and item ids differ
  from the model there. A year above 9999 is printed with all its digits and no sign. Java's
  `yyyy` pattern prefixes such a year with "+" on Android; Swift's does not.
- Basics.Filter: its own contract states membership only. How often each element is kept
  and in which order are stated in Basics.FilterMultiplicity and Basics.FilterAppend.
- Locale-dependent text. The weekday names are the fixed German names, and Swift's
  `.capitalized` is the identity on them.
- The device time zone of the iOS `Calendar` used for day arithmetic and `isDate(_:inSameDayAs:)`.
  It is taken to be Europe/Berlin.
- Sorting stability on iOS. Swift's `sorted(by:)` is not documented as stable. Both
  platforms are modelled with the stable sort that Kotlin's `sortedBy` guarantees, so ties
  between equal kickoffs or equal result types are ordered as on Android.
- Swift's `compactMap` over the seven days: adding days to a date never fails in the model,
  so there are always seven blocks.
- The iOS `DayBlock.id`. It is always the date label, so the block keeps only `dateLabel`.
- Rows.WeekRowKeysDistinct: is stated only for the years 1 to 9999. Outside them the `yyyy`
  field is wider than four digits and the key layout the proof relies on changes.
- ViewModel.PreviousWeek, ViewModel.NextWeek and ViewModel.Recalc: the model uses unbounded
  integers. On Android the `Int` offset wraps around in `weekOffset - 1` and `weekOffset + 1`
  (SportkalenderViewModel.kt:84, :90), and so does the `Int` product `weekOffset * 7` before
  its conversion to `Long` (:123). On iOS `weekOffset -= 1`, `weekOffset += 1` and
  `weekOffset * 7` trap on overflow (SportkalenderViewModel.swift:60, :65, :82) and end the app.
- Models.DecodeMatches: a null element of the matches array is a decoding error in the model,
  as on iOS, where `container(keyedBy:)` throws `valueNotFound` (Models.swift:24). Gson keeps
  it as a null `OpenLigaMatch`. The Android app assigns the list and calls `recalcWeek`
  inside `onSuccess`, outside `runCatching` (SportkalenderViewModel.kt:106-111); reading that
  entry's kickoff (:131) throws a NullPointerException, and the app crashes instead of
  showing an error. The model does not model that crash.
- Compose and SwiftUI rendering, the theme, the build files and the service worker `sw.js`.
