/** The flat row list the Android schedule screen renders: for each day block a header row,
    then either one row per match or a single "no matches" row; and the match count shown in
    the week summary. */
module Rows {
  import opened Basics
  import opened Text
  import opened Calendar
  import opened Models
  import opened Week

  datatype ScheduleRow =
    | DayHeaderRow(key: string, dayLabel: string, dateLabel: string, isToday: bool)
    | MatchRow(key: string, isToday: bool, item: MatchItem)
    | EmptyDayRow(key: string, isToday: bool)

  function HeaderKey(dateLabel: string): string {
    "header-" + dateLabel
  }

  function EmptyKey(dateLabel: string): string {
    "empty-" + dateLabel
  }

  /** The key of the match at position `idx` of its day. */
  function MatchKey(dateLabel: string, idx: nat, item: MatchItem): string {
    "match-" + dateLabel + "-" + NatToDecimal(idx) + "-" + item.home + "-" + item.away + "-" + item.kickoff
  }

  function MatchRows(day: DayBlock): seq<ScheduleRow> {
    seq(|day.matches|, j requires 0 <= j < |day.matches| =>
      MatchRow(MatchKey(day.dateLabel, j, day.matches[j]), day.isToday, day.matches[j]))
  }

  /** The rows of one day: its header, then its matches or one empty-day row. */
  function DayRows(day: DayBlock): seq<ScheduleRow> {
    [DayHeaderRow(HeaderKey(day.dateLabel), day.dayLabel, day.dateLabel, day.isToday)]
    + (if |day.matches| == 0 then [EmptyDayRow(EmptyKey(day.dateLabel), day.isToday)] else MatchRows(day))
  }

  /** `buildScheduleRows`. */
  function BuildScheduleRows(days: seq<DayBlock>): (rows: seq<ScheduleRow>)
    ensures |rows| >= 2 * |days|
    ensures rows == [] <==> |days| == 0
  {
    if |days| == 0 then [] else DayRows(days[0]) + BuildScheduleRows(days[1..])
  }

  /** `dayBlocks.sumOf { it.matches.size }`. */
  function WeekMatchCount(days: seq<DayBlock>): nat {
    if |days| == 0 then 0 else |days[0].matches| + WeekMatchCount(days[1..])
  }

  /** The week has no match exactly when every day is empty, and no day holds more matches
      than the week. */
  lemma {:induction false} WeekMatchCountBounds(days: seq<DayBlock>)
    ensures WeekMatchCount(days) == 0 <==> forall i :: 0 <= i < |days| ==> days[i].matches == []
    ensures forall i :: 0 <= i < |days| ==> |days[i].matches| <= WeekMatchCount(days)
    decreases |days|
  {
    if |days| > 0 {
      WeekMatchCountBounds(days[1..]);
      assert forall i :: 1 <= i < |days| ==> days[i] == days[1..][i - 1];
    }
  }

  /** The number of rows a week needs: per day a header and at least one further row. */
  function RowBudget(days: seq<DayBlock>): nat {
    if |days| == 0 then 0
    else 1 + (if |days[0].matches| == 0 then 1 else |days[0].matches|) + RowBudget(days[1..])
  }

  /** The number of days without matches. */
  function EmptyDays(days: seq<DayBlock>): nat {
    if |days| == 0 then 0 else (if |days[0].matches| == 0 then 1 else 0) + EmptyDays(days[1..])
  }

  /** All match items of the days, day after day. */
  function AllItems(days: seq<DayBlock>): seq<MatchItem> {
    if |days| == 0 then [] else days[0].matches + AllItems(days[1..])
  }

  /** The items of the match rows, in row order. */
  function Items(rows: seq<ScheduleRow>): seq<MatchItem> {
    if |rows| == 0 then [] else (if rows[0].MatchRow? then [rows[0].item] else []) + Items(rows[1..])
  }

  /** The day each header row announces (without its matches), in row order. */
  function Headers(rows: seq<ScheduleRow>): seq<DayBlock> {
    if |rows| == 0 then []
    else
      (if rows[0].DayHeaderRow? then [DayBlock(rows[0].dayLabel, rows[0].dateLabel, rows[0].isToday, [])] else [])
      + Headers(rows[1..])
  }

  function EmptyRowCount(rows: seq<ScheduleRow>): nat {
    if |rows| == 0 then 0 else (if rows[0].EmptyDayRow? then 1 else 0) + EmptyRowCount(rows[1..])
  }

  function HeaderOnly(day: DayBlock): DayBlock {
    day.(matches := [])
  }

  lemma {:induction false} ProjectionsAppend(a: seq<ScheduleRow>, b: seq<ScheduleRow>)
    ensures Items(a + b) == Items(a) + Items(b)
    ensures Headers(a + b) == Headers(a) + Headers(b)
    ensures EmptyRowCount(a + b) == EmptyRowCount(a) + EmptyRowCount(b)
    decreases |a|
  {
    if |a| > 0 {
      assert (a + b)[0] == a[0];
      assert (a + b)[1..] == a[1..] + b;
      ProjectionsAppend(a[1..], b);
    } else {
      assert a + b == b;
    }
  }

  lemma {:induction false} MatchRowsProjections(day: DayBlock, n: nat)
    requires n <= |day.matches|
    ensures Items(MatchRows(day)[n..]) == day.matches[n..]
    ensures Headers(MatchRows(day)[n..]) == []
    ensures EmptyRowCount(MatchRows(day)[n..]) == 0
    decreases |day.matches| - n
  {
    var rows := MatchRows(day);
    if n < |day.matches| {
      assert rows[n..][1..] == rows[n + 1..];
      MatchRowsProjections(day, n + 1);
      assert day.matches[n..] == [day.matches[n]] + day.matches[n + 1..];
    }
  }

  /** One day's rows: a header first, then one row per match in order, or exactly one
      empty-day row; every row carries the day's `isToday`. */
  lemma DayRowsShape(day: DayBlock)
    ensures var rows := DayRows(day);
      rows[0] == DayHeaderRow(HeaderKey(day.dateLabel), day.dayLabel, day.dateLabel, day.isToday)
      && |rows| == 1 + (if |day.matches| == 0 then 1 else |day.matches|)
      && Items(rows) == day.matches
      && Headers(rows) == [HeaderOnly(day)]
      && EmptyRowCount(rows) == (if |day.matches| == 0 then 1 else 0)
      && (forall t :: 0 <= t < |rows| ==> rows[t].isToday == day.isToday)
  {
    var rows := DayRows(day);
    var head := [rows[0]];
    var tail := rows[1..];
    assert rows == head + tail;
    ProjectionsAppend(head, tail);
    if |day.matches| > 0 {
      MatchRowsProjections(day, 0);
      assert MatchRows(day)[0..] == MatchRows(day);
      assert day.matches[0..] == day.matches;
    }
  }

  lemma {:induction false} BuildAppend(a: seq<DayBlock>, b: seq<DayBlock>)
    ensures BuildScheduleRows(a + b) == BuildScheduleRows(a) + BuildScheduleRows(b)
    decreases |a|
  {
    hide DayRows;
    if |a| > 0 {
      assert (a + b)[0] == a[0];
      assert (a + b)[1..] == a[1..] + b;
      BuildAppend(a[1..], b);
    } else {
      assert a + b == b;
    }
  }

  /** The rows of day `k` form one contiguous run, placed after the rows of the days before it. */
  lemma DayRun(days: seq<DayBlock>, k: nat)
    requires k < |days|
    ensures var start := |BuildScheduleRows(days[..k])|;
      start + |DayRows(days[k])| <= |BuildScheduleRows(days)|
      && BuildScheduleRows(days)[start..start + |DayRows(days[k])|] == DayRows(days[k])
  {
    assert days == days[..k] + ([days[k]] + days[k + 1..]);
    BuildAppend(days[..k], [days[k]] + days[k + 1..]);
    BuildAppend([days[k]], days[k + 1..]);
    assert BuildScheduleRows([days[k]]) == DayRows(days[k]) + BuildScheduleRows([]);
  }

  /** The headers and the match items of the flattened rows, in day order. */
  lemma {:induction false} BuildContents(days: seq<DayBlock>)
    ensures var rows := BuildScheduleRows(days);
      Headers(rows) == seq(|days|, k requires 0 <= k < |days| => HeaderOnly(days[k]))
      && Items(rows) == AllItems(days)
    decreases |days|
  {
    hide DayRows;
    if |days| > 0 {
      var rest := days[1..];
      BuildContents(rest);
      DayRowsShape(days[0]);
      ProjectionsAppend(DayRows(days[0]), BuildScheduleRows(rest));
      var hs := seq(|days|, k requires 0 <= k < |days| => HeaderOnly(days[k]));
      var hr := seq(|rest|, k requires 0 <= k < |rest| => HeaderOnly(rest[k]));
      assert hs == [HeaderOnly(days[0])] + hr;
    }
  }

  /** The number of rows, of empty-day rows and of match items of the flattened rows. */
  lemma {:induction false} BuildCounts(days: seq<DayBlock>)
    ensures var rows := BuildScheduleRows(days);
      |rows| == RowBudget(days)
      && EmptyRowCount(rows) == EmptyDays(days)
      && |AllItems(days)| == WeekMatchCount(days)
    decreases |days|
  {
    hide DayRows;
    if |days| > 0 {
      var rest := days[1..];
      BuildCounts(rest);
      DayRowsShape(days[0]);
      ProjectionsAppend(DayRows(days[0]), BuildScheduleRows(rest));
    }
  }

  /** The flattened rows: as many as the budget, the headers of all days in their order, the
      match items of all days in their order, one empty row per day without matches; and the
      week match count is the number of match rows. */
  lemma BuildSummary(days: seq<DayBlock>)
    ensures var rows := BuildScheduleRows(days);
      |rows| == RowBudget(days)
      && Headers(rows) == seq(|days|, k requires 0 <= k < |days| => HeaderOnly(days[k]))
      && Items(rows) == AllItems(days)
      && EmptyRowCount(rows) == EmptyDays(days)
      && |Items(rows)| == WeekMatchCount(days)
  {
    BuildContents(days);
    BuildCounts(days);
  }

  predicate DistinctKeys(rows: seq<ScheduleRow>) {
    forall i, j :: 0 <= i < j < |rows| ==> rows[i].key != rows[j].key
  }

  /** Within a day, the match position in a key tells the match rows apart. */
  lemma MatchKeyIndex(dateLabel: string, i: nat, j: nat, a: MatchItem, b: MatchItem)
    ensures MatchKey(dateLabel, i, a) == MatchKey(dateLabel, j, b) ==> i == j
  {
    hide NatToDecimal;
    var ka, kb := MatchKey(dateLabel, i, a), MatchKey(dateLabel, j, b);
    if ka == kb {
      var n := 7 + |dateLabel|;
      var ra := a.home + "-" + a.away + "-" + a.kickoff;
      var rb := b.home + "-" + b.away + "-" + b.kickoff;
      assert ka == ("match-" + dateLabel + "-") + (NatToDecimal(i) + "-" + ra);
      assert kb == ("match-" + dateLabel + "-") + (NatToDecimal(j) + "-" + rb);
      assert ka[n..] == NatToDecimal(i) + "-" + ra;
      assert kb[n..] == NatToDecimal(j) + "-" + rb;
      SplitAtSeparator('-', NatToDecimal(i), ra, NatToDecimal(j), rb);
      NatToDecimalInjective(i, j);
    }
  }

  /** The three kinds of key start with different letters. */
  lemma KeyInitials(dateLabel: string, idx: nat, item: MatchItem)
    ensures HeaderKey(dateLabel)[0] == 'h'
    ensures EmptyKey(dateLabel)[0] == 'e'
    ensures MatchKey(dateLabel, idx, item)[0] == 'm'
  {
  }

  /** The key of row `t` of a day. */
  lemma DayRowKey(day: DayBlock, t: int)
    requires 0 <= t < |DayRows(day)|
    ensures |DayRows(day)| == 1 + (if |day.matches| == 0 then 1 else |day.matches|)
    ensures DayRows(day)[t].key ==
      if t == 0 then HeaderKey(day.dateLabel)
      else if |day.matches| == 0 then EmptyKey(day.dateLabel)
      else MatchKey(day.dateLabel, t - 1, day.matches[t - 1])
  {
    if t > 0 && |day.matches| > 0 {
      assert DayRows(day)[t] == MatchRows(day)[t - 1];
    }
  }

  lemma DayRowsDistinct(day: DayBlock)
    ensures DistinctKeys(DayRows(day))
  {
    hide DayRows, NatToDecimal, HeaderKey, EmptyKey, MatchKey;
    var rows := DayRows(day);
    forall i, j | 0 <= i < j < |rows|
      ensures rows[i].key != rows[j].key
    {
      DayRowKey(day, i);
      DayRowKey(day, j);
      if i == 0 {
        if |day.matches| == 0 {
          KeyInitials(day.dateLabel, 0, MatchItem(None, "", "", "", "", []));
        } else {
          KeyInitials(day.dateLabel, j - 1, day.matches[j - 1]);
        }
      } else {
        MatchKeyIndex(day.dateLabel, i - 1, j - 1, day.matches[i - 1], day.matches[j - 1]);
      }
    }
  }

  /** The date label carried by a key built from a ten-character label. */
  function KeyDate(key: string): string {
    if |key| >= 17 && key[0] == 'h' then key[7..17]
    else if |key| >= 16 then key[6..16]
    else ""
  }

  lemma KeyDates(dateLabel: string, idx: nat, item: MatchItem)
    requires |dateLabel| == 10
    ensures KeyDate(HeaderKey(dateLabel)) == dateLabel
    ensures KeyDate(EmptyKey(dateLabel)) == dateLabel
    ensures KeyDate(MatchKey(dateLabel, idx, item)) == dateLabel
  {
    var rest := "-" + NatToDecimal(idx) + "-" + item.home + "-" + item.away + "-" + item.kickoff;
    assert MatchKey(dateLabel, idx, item) == "match-" + dateLabel + rest;
  }

  lemma DayRowsKeyDate(day: DayBlock)
    requires |day.dateLabel| == 10
    ensures forall t :: 0 <= t < |DayRows(day)| ==> KeyDate(DayRows(day)[t].key) == day.dateLabel
  {
    var rows := DayRows(day);
    forall t | 0 <= t < |rows|
      ensures KeyDate(rows[t].key) == day.dateLabel
    {
      if t == 0 || |day.matches| == 0 {
        KeyDates(day.dateLabel, 0, MatchItem(None, "", "", "", "", []));
      } else {
        assert rows[t] == MatchRows(day)[t - 1];
        KeyDates(day.dateLabel, t - 1, day.matches[t - 1]);
      }
    }
  }

  /** Every row key names the date label of one of the days. */
  lemma {:induction false} RowKeyDates(days: seq<DayBlock>)
    requires forall k :: 0 <= k < |days| ==> |days[k].dateLabel| == 10
    ensures forall i :: 0 <= i < |BuildScheduleRows(days)| ==>
      exists k :: 0 <= k < |days| && KeyDate(BuildScheduleRows(days)[i].key) == days[k].dateLabel
    decreases |days|
  {
    if |days| > 0 {
      var rest := days[1..];
      var first := DayRows(days[0]);
      var later := BuildScheduleRows(rest);
      var rows := BuildScheduleRows(days);
      assert rows == first + later;
      RowKeyDates(rest);
      DayRowsKeyDate(days[0]);
      forall i | 0 <= i < |rows|
        ensures exists k :: 0 <= k < |days| && KeyDate(rows[i].key) == days[k].dateLabel
      {
        if i < |first| {
          assert rows[i] == first[i];
          assert KeyDate(rows[i].key) == days[0].dateLabel;
        } else {
          assert rows[i] == later[i - |first|];
          var k :| 0 <= k < |rest| && KeyDate(later[i - |first|].key) == rest[k].dateLabel;
          assert rest[k] == days[k + 1];
        }
      }
    } else {
      assert BuildScheduleRows(days) == [];
    }
  }

  /** When the days have distinct ten-character date labels, no two rows share a key (the list
      keys of the schedule screen). */
  lemma {:induction false} RowKeysDistinct(days: seq<DayBlock>)
    requires forall k :: 0 <= k < |days| ==> |days[k].dateLabel| == 10
    requires forall k, l :: 0 <= k < l < |days| ==> days[k].dateLabel != days[l].dateLabel
    ensures DistinctKeys(BuildScheduleRows(days))
    decreases |days|
  {
    if |days| > 0 {
      var rest := days[1..];
      var first := DayRows(days[0]);
      var later := BuildScheduleRows(rest);
      var rows := BuildScheduleRows(days);
      assert rows == first + later;
      RowKeysDistinct(rest);
      RowKeyDates(rest);
      DayRowsDistinct(days[0]);
      DayRowsKeyDate(days[0]);
      forall i, j | 0 <= i < j < |rows|
        ensures rows[i].key != rows[j].key
      {
        if j < |first| {
          assert rows[i] == first[i] && rows[j] == first[j];
        } else if i >= |first| {
          assert rows[i] == later[i - |first|] && rows[j] == later[j - |first|];
        } else {
          assert rows[i] == first[i] && rows[j] == later[j - |first|];
          var k :| 0 <= k < |rest| && KeyDate(later[j - |first|].key) == rest[k].dateLabel;
          assert rest[k] == days[k + 1];
        }
      }
    }
  }

  /** Days labelled with consecutive dates carry distinct labels. */
  lemma ConsecutiveLabels(days: seq<DayBlock>, first: int)
    requires forall k :: 0 <= k < |days| ==> |days[k].dateLabel| == 10 && LabelDay(days[k].dateLabel) == first + k
    ensures forall k, l :: 0 <= k < l < |days| ==> days[k].dateLabel != days[l].dateLabel
  {
    forall k, l | 0 <= k < l < |days|
      ensures days[k].dateLabel != days[l].dateLabel
    {
      assert LabelDay(days[k].dateLabel) != LabelDay(days[l].dateLabel);
    }
  }

  /** The rows of a week within the years 1 to 9999 have distinct keys. */
  lemma WeekRowKeysDistinct(p: Platform, env: TimeEnv, league: string, today: int, monday: int, all: seq<OpenLigaMatch>)
    requires FirstFourDigitDay <= monday && monday + 6 <= LastFourDigitDay
    ensures DistinctKeys(BuildScheduleRows(WeekBlocks(p, env, league, today, monday, all)))
  {
    hide WeekBlocks, DayItems, BuildScheduleRows, MakeItem;
    var blocks := WeekBlocks(p, env, league, today, monday, all);
    forall k | 0 <= k < 7
      ensures |blocks[k].dateLabel| == 10 && LabelDay(blocks[k].dateLabel) == monday + k
    {
      BlockAt(p, env, league, today, monday, all, k);
      DateLabelRoundTrip(monday + k);
    }
    ConsecutiveLabels(blocks, monday);
    RowKeysDistinct(blocks);
  }

  lemma {:induction false} WeekMatchCountAppend(a: seq<DayBlock>, b: seq<DayBlock>)
    ensures WeekMatchCount(a + b) == WeekMatchCount(a) + WeekMatchCount(b)
    decreases |a|
  {
    if |a| > 0 {
      assert (a + b)[0] == a[0];
      assert (a + b)[1..] == a[1..] + b;
      WeekMatchCountAppend(a[1..], b);
    } else {
      assert a + b == b;
    }
  }

  /** Days whose `k`-th entry holds one item per match kicking off on `first + k`. */
  ghost predicate CountsMatchDays(days: seq<DayBlock>, env: TimeEnv, first: int, all: seq<OpenLigaMatch>) {
    forall k :: 0 <= k < |days| ==> |days[k].matches| == |Filter(all, OnDateFilter(env, first + k))|
  }

  /** A window of `n` days is the window of its first `n - 1` days and its last day, which
      share no match. */
  lemma WindowSplitsAtLastDay(env: TimeEnv, first: int, n: int, all: seq<OpenLigaMatch>)
    requires n > 0
    ensures forall i :: 0 <= i < |all| ==>
      (InDays(env, first, first + n)(all[i]) <==> InDays(env, first, first + (n - 1))(all[i]) || OnDateFilter(env, first + (n - 1))(all[i]))
    ensures forall i :: 0 <= i < |all| ==>
      !(InDays(env, first, first + (n - 1))(all[i]) && OnDateFilter(env, first + (n - 1))(all[i]))
  {
  }

  lemma {:induction false} WindowCountPrefix(days: seq<DayBlock>, env: TimeEnv, first: int, all: seq<OpenLigaMatch>, n: nat)
    requires n <= |days|
    requires CountsMatchDays(days, env, first, all)
    ensures WeekMatchCount(days[..n]) == |Filter(all, InDays(env, first, first + n))|
  {
    if n == 0 {
      assert days[..n] == [];
      FilterNone(all, InDays(env, first, first));
    } else {
      var d := first + (n - 1);
      WindowCountPrefix(days, env, first, all, n - 1);
      CountsAt(days, env, first, all, n - 1);
      WeekMatchCountLast(days, n);
      WindowSplitsAtLastDay(env, first, n, all);
      FilterCountSplit(all, InDays(env, first, first + n), InDays(env, first, d), OnDateFilter(env, d));
    }
  }

  /** The count of a prefix grows by the matches of the day it adds. */
  lemma WeekMatchCountLast(days: seq<DayBlock>, n: nat)
    requires 0 < n <= |days|
    ensures WeekMatchCount(days[..n]) == WeekMatchCount(days[..n - 1]) + |days[n - 1].matches|
  {
    assert days[..n] == days[..n - 1] + [days[n - 1]];
    WeekMatchCountAppend(days[..n - 1], [days[n - 1]]);
  }

  lemma CountsAt(days: seq<DayBlock>, env: TimeEnv, first: int, all: seq<OpenLigaMatch>, k: nat)
    requires CountsMatchDays(days, env, first, all) && k < |days|
    ensures |days[k].matches| == |Filter(all, OnDateFilter(env, first + k))|
  {
  }

  /** The week's match count is the number of loaded matches whose Berlin kickoff date falls in
      the week: each of them is counted once, all others not at all. */
  lemma WeekMatchCountOfWindow(p: Platform, env: TimeEnv, league: string, today: int, monday: int, all: seq<OpenLigaMatch>)
    ensures WeekMatchCount(WeekBlocks(p, env, league, today, monday, all))
      == |Filter(all, InDays(env, monday, monday + 7))|
  {
    hide WeekBlocks, DateLabel, MakeItem;
    var blocks := WeekBlocks(p, env, league, today, monday, all);
    forall k | 0 <= k < 7
      ensures |blocks[k].matches| == |Filter(all, OnDateFilter(env, monday + k))|
    {
      BlockItems(p, env, league, today, monday, all, k);
    }
    WindowCountPrefix(blocks, env, monday, all, 7);
    assert blocks[..7] == blocks;
  }
}
