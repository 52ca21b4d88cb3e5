/** The leaderboard screen: it fetches the top rows, narrows them to the
    selected time window, and renders each row with a rank icon, a clock for the
    time left, a relative date and a highlight for the current player. */
module Leaderboard {
  import opened Common
  import opened DbClient

  datatype TimeFilter = AllTime | ThisWeek | Today

  const MinuteMs: int := 60000
  const HourMs: int := 3600000
  const DayMs: int := 86400000
  const WeekMs: int := 7 * DayMs

  // ---------------------------------------------------------------------------
  // Time-window filters

  /** The rows created at or after `cutoff`, in their original order. */
  function KeepSince(rows: seq<ScoreRow>, cutoff: int): (r: seq<ScoreRow>)
    ensures SubsequenceOf(r, rows)
    ensures forall x :: x in r <==> x in rows && x.createdAt >= cutoff
    ensures forall x :: multiset(r)[x] == if x.createdAt >= cutoff then multiset(rows)[x] else 0
  {
    if rows == [] then []
    else
      assert rows == [rows[0]] + rows[1..];
      var tail := KeepSince(rows[1..], cutoff);
      if rows[0].createdAt >= cutoff then
        assert ([rows[0]] + tail)[1..] == tail;
        [rows[0]] + tail
      else tail
  }

  /** Filtering a ranked list leaves it ranked. */
  lemma {:induction false} KeepSinceKeepsRanking(rows: seq<ScoreRow>, cutoff: int)
    requires Ranked(rows)
    ensures Ranked(KeepSince(rows, cutoff))
    decreases |rows|
  {
    if rows != [] {
      RankedTail(rows);
      KeepSinceKeepsRanking(rows[1..], cutoff);
      var tail := KeepSince(rows[1..], cutoff);
      if rows[0].createdAt >= cutoff {
        forall j | 0 <= j < |tail| ensures RanksAtLeast(rows[0], tail[j]) {
          assert tail[j] in rows[1..];
          var k :| 0 <= k < |rows[1..]| && rows[1..][k] == tail[j];
          assert rows[k + 1] == tail[j];
        }
        RankedCons(rows[0], tail);
      }
    }
  }

  /** The rows the selected window keeps: all of them, those since local
      midnight today, or those of the last seven days. */
  function Filtered(rows: seq<ScoreRow>, filter: TimeFilter, now: int, todayStart: int): (r: seq<ScoreRow>)
    ensures SubsequenceOf(r, rows)
    ensures filter == AllTime ==> r == rows
    ensures filter == Today ==> r == KeepSince(rows, todayStart)
    ensures filter == ThisWeek ==> r == KeepSince(rows, now - WeekMs)
    ensures filter == Today ==> forall x :: x in r <==> x in rows && x.createdAt >= todayStart
    ensures filter == ThisWeek ==> forall x :: x in r <==> x in rows && x.createdAt >= now - WeekMs
  {
    SubsequenceOfSelf(rows);
    match filter
    case AllTime => rows
    case Today => KeepSince(rows, todayStart)
    case ThisWeek => KeepSince(rows, now - WeekMs)
  }

  lemma {:induction false} SubsequenceOfSelf(rows: seq<ScoreRow>)
    ensures SubsequenceOf(rows, rows)
    decreases |rows|
  {
    if rows != [] {
      SubsequenceOfSelf(rows[1..]);
    }
  }

  /** Every window keeps the list in leaderboard order. */
  lemma FilteredKeepsRanking(rows: seq<ScoreRow>, filter: TimeFilter, now: int, todayStart: int)
    requires Ranked(rows)
    ensures Ranked(Filtered(rows, filter, now, todayStart))
  {
    match filter
    case AllTime =>
    case Today => KeepSinceKeepsRanking(rows, todayStart);
    case ThisWeek => KeepSinceKeepsRanking(rows, now - WeekMs);
  }

  /** Local midnight lies less than 25 hours back (a day that gains an hour at
      a daylight-saving change is 25 hours long), so "today" drops an entry
      made 25 hours or more ago, drops one a day old whenever midnight is less
      than a day back, and keeps none that "this week" drops. */
  lemma TodayWindow(rows: seq<ScoreRow>, now: int, todayStart: int, x: ScoreRow)
    requires now - 25 * HourMs < todayStart <= now
    ensures x.createdAt <= now - 25 * HourMs ==> x !in Filtered(rows, Today, now, todayStart)
    ensures now - DayMs < todayStart && x.createdAt <= now - DayMs ==> x !in Filtered(rows, Today, now, todayStart)
    ensures x in Filtered(rows, Today, now, todayStart) ==> x in Filtered(rows, ThisWeek, now, todayStart)
  {
  }

  // ---------------------------------------------------------------------------
  // Fetching

  /** What the fetch of `/api/scores?limit=100` gave: it threw (network or a
      body that is not JSON), or a response with its `ok` flag and the body's
      `success` and `data` fields. */
  datatype FetchOutcome = FetchThrew | Fetched(ok: bool, success: bool, data: Option<seq<ScoreRow>>)

  /** The rows shown after a fetch: none on any failure, otherwise the filtered data. */
  function ShownScores(outcome: FetchOutcome, filter: TimeFilter, now: int, todayStart: int): (r: seq<ScoreRow>)
    ensures outcome.FetchThrew? || !outcome.ok || !outcome.success ==> r == []
    ensures outcome.Fetched? && outcome.ok && outcome.success ==>
              r == Filtered(outcome.data.GetOr([]), filter, now, todayStart)
  {
    if outcome.FetchThrew? || !outcome.ok || !outcome.success then []
    else Filtered(outcome.data.GetOr([]), filter, now, todayStart)
  }

  /** The component's state. */
  class LeaderboardView {
    /** The name of the player who just finished, if any. */
    const highlightName: Option<string>
    var scores: seq<ScoreRow>
    var loading: bool
    var filter: TimeFilter

    constructor (highlightName: Option<string>)
      ensures this.highlightName == highlightName
      ensures scores == [] && loading && filter == AllTime
    {
      this.highlightName := highlightName;
      scores, loading, filter := [], true, AllTime;
    }

    /** Fetches and filters; whatever happens, loading is over afterwards.
        `now` is the current instant and `todayStart` local midnight of today. */
    method FetchScores(outcome: FetchOutcome, now: int, todayStart: int)
      modifies this`scores, this`loading
      ensures !loading
      ensures scores == ShownScores(outcome, filter, now, todayStart)
    {
      loading := true;
      if outcome.FetchThrew? || !outcome.ok || !outcome.success {
        scores := [];
      } else {
        var rows := outcome.data.GetOr([]);
        if filter == Today {
          rows := KeepSince(rows, todayStart);
        } else if filter == ThisWeek {
          rows := KeepSince(rows, now - WeekMs);
        }
        scores := rows;
      }
      loading := false;
    }

    /** A filter tab. A different filter is stored and, since the fetch runs
        whenever the filter changes, the rows are fetched again under it; the
        tab already selected sets the same value, so nothing happens. */
    method SelectFilter(f: TimeFilter, outcome: FetchOutcome, now: int, todayStart: int)
      modifies this`filter, this`scores, this`loading
      ensures filter == f
      ensures old(filter) == f ==> scores == old(scores) && loading == old(loading)
      ensures old(filter) != f ==> !loading && scores == ShownScores(outcome, f, now, todayStart)
    {
      if f != filter {
        filter := f;
        FetchScores(outcome, now, todayStart);
      }
    }
  }

  // ---------------------------------------------------------------------------
  // Rendering a row

  datatype RankIcon = Trophy | Medal | Award | Position(text: string)

  /** The first three places get a trophy, a medal and an award; every other
      place shows its 1-based number. */
  function GetRankIcon(index: nat): (r: RankIcon)
    ensures index == 0 <==> r == Trophy
    ensures index == 1 <==> r == Medal
    ensures index == 2 <==> r == Award
    ensures index >= 3 <==> r.Position?
    ensures r.Position? ==> |r.text| >= 2 && r.text[0] == '#'
                            && AllDigits(r.text[1..]) && DigitsValue(r.text[1..]) == index + 1
  {
    if index == 0 then Trophy
    else if index == 1 then Medal
    else if index == 2 then Award
    else
      var text := "#" + NatToString(index + 1);
      assert text[1..] == NatToString(index + 1);
      NatToStringRoundTrip(index + 1);
      Position(text)
  }

  /** Different places never share an icon. */
  lemma RankIconsDistinct(i: nat, j: nat)
    requires GetRankIcon(i) == GetRankIcon(j)
    ensures i == j
  {
  }

  datatype AgeUnit = Minutes | Hours | Days

  /** A relative date, or the absolute date for entries a week old or older. */
  datatype DateLabel = Ago(amount: int, unit: AgeUnit) | OnDate(instant: int)

  function UnitMs(u: AgeUnit): int {
    match u
    case Minutes => MinuteMs
    case Hours => HourMs
    case Days => DayMs
  }

  /** The date column: minutes under an hour, hours under a day, days under a
      week, and the date itself beyond; each amount is the whole number of
      units elapsed. */
  function FormatDate(createdAt: int, now: int): (r: DateLabel)
    ensures (r.Ago? && r.unit == Minutes) <==> now - createdAt < HourMs
    ensures (r.Ago? && r.unit == Hours) <==> HourMs <= now - createdAt < DayMs
    ensures (r.Ago? && r.unit == Days) <==> DayMs <= now - createdAt < WeekMs
    ensures r.OnDate? <==> WeekMs <= now - createdAt
    ensures r.OnDate? ==> r.instant == createdAt
    ensures r.Ago? ==> r.amount * UnitMs(r.unit) <= now - createdAt < (r.amount + 1) * UnitMs(r.unit)
    ensures r.Ago? && r.unit == Hours ==> 1 <= r.amount <= 23
    ensures r.Ago? && r.unit == Days ==> 1 <= r.amount <= 6
  {
    var diff := now - createdAt;
    var mins := diff / MinuteMs;
    var hours := diff / HourMs;
    var days := diff / DayMs;
    if mins < 60 then Ago(mins, Minutes)
    else if hours < 24 then Ago(hours, Hours)
    else if days < 7 then Ago(days, Days)
    else OnDate(createdAt)
  }

  /** What follows the amount of a relative date. */
  function Suffix(u: AgeUnit): (r: string)
    ensures |r| == 5 && r[1..] == " ago" && !IsDigit(r[0])
    ensures r[0] == 'm' <==> u == Minutes
    ensures r[0] == 'h' <==> u == Hours
    ensures r[0] == 'd' <==> u == Days
  {
    match u
    case Minutes => "m ago"
    case Hours => "h ago"
    case Days => "d ago"
  }

  /** The text of a relative date, "5m ago", "3h ago" or "2d ago"; the
      absolute date is rendered by the browser's locale and has no text here. */
  function DateText(date: DateLabel): (r: Option<string>)
    ensures r.Some? <==> date.Ago?
    ensures r.Some? ==> r.value == IntToString(date.amount) + Suffix(date.unit)
    ensures r.Some? ==> ParseInt(r.value) == Some(date.amount)
  {
    match date
    case OnDate(_) => None
    case Ago(amount, unit) =>
      IntParseRoundTrip(amount, Suffix(unit));
      Some(IntToString(amount) + Suffix(unit))
  }

  /** The date column end to end: an entry under an hour old reads "Nm ago"
      with N its whole minutes, one under a day old "Nh ago", and one under a
      week old "Nd ago". */
  lemma RelativeDateText(createdAt: int, now: int)
    requires 0 <= now - createdAt < WeekMs
    ensures now - createdAt < HourMs ==>
              DateText(FormatDate(createdAt, now)) == Some(IntToString((now - createdAt) / MinuteMs) + "m ago")
    ensures HourMs <= now - createdAt < DayMs ==>
              DateText(FormatDate(createdAt, now)) == Some(IntToString((now - createdAt) / HourMs) + "h ago")
    ensures DayMs <= now - createdAt ==>
              DateText(FormatDate(createdAt, now)) == Some(IntToString((now - createdAt) / DayMs) + "d ago")
  {
  }

  /** A row is highlighted when a non-empty name was passed and it is the
      row's player name. */
  predicate IsHighlighted(highlightName: Option<string>, row: ScoreRow) {
    highlightName.Some? && highlightName.value != "" && row.playerName == highlightName.value
  }

  /** Only the rows of the named player are highlighted, all of them when the
      name is not empty, and none without a name. */
  lemma HighlightsExactlyThePlayer(highlightName: Option<string>, rows: seq<ScoreRow>, i: nat)
    requires i < |rows|
    ensures highlightName.None? ==> !IsHighlighted(highlightName, rows[i])
    ensures IsHighlighted(highlightName, rows[i]) ==> highlightName == Some(rows[i].playerName)
    ensures highlightName == Some(rows[i].playerName) && rows[i].playerName != ""
            ==> IsHighlighted(highlightName, rows[i])
  {
  }
}
