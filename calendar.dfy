/** components/CalendarHeatmap.tsx: the Monday-aligned grid of weeks for
    the current month, the per-day activity counts of a week row, the
    week-complete flag and a tile's colour intensity.

    Dates are day numbers counted from 1970-01-01, which was a Thursday, so
    `Date.prototype.getDay` (Sunday = 0 ... Saturday = 6) is `(n + 4) % 7`.
    A timestamp in milliseconds falls on day `ms / 86400000`. */
module CalendarHeatmap {
  import opened Types
  import opened Seqs
  import opened JsMath

  /** `getDay()` of a day number. */
  function Weekday(day: int): (w: int)
    ensures 0 <= w < 7
  {
    (day + 4) % 7
  }

  /** `(firstDayOfMonth.getDay() + 6) % 7`: days since the last Monday. */
  function Offset(firstOfMonth: int): (o: int)
    ensures 0 <= o <= 6
  {
    (Weekday(firstOfMonth) + 6) % 7
  }

  /** `new Date(year, month, 1 - dayOfWeek)`: the day the grid starts on. */
  function GridStart(firstOfMonth: int): (r: int)
    ensures firstOfMonth - 6 <= r <= firstOfMonth
  {
    firstOfMonth - Offset(firstOfMonth)
  }

  /** The grid starts on the Monday on or before the 1st, at most six days
      before it. */
  lemma GridStartIsMonday(firstOfMonth: int)
    ensures GridStart(firstOfMonth) <= firstOfMonth <= GridStart(firstOfMonth) + 6
    ensures Weekday(GridStart(firstOfMonth)) == 1
  {
    var w := Weekday(firstOfMonth);
    var q := (firstOfMonth + 4) / 7;
    assert firstOfMonth + 4 == 7 * q + w;
    if w == 0 {
      assert GridStart(firstOfMonth) + 4 == 7 * (q - 1) + 1;
    } else {
      assert GridStart(firstOfMonth) + 4 == 7 * q + 1;
    }
  }

  /** `weeks` is `count` rows of seven consecutive days from `start`. */
  ghost predicate IsGrid(weeks: seq<seq<int>>, start: int, count: int)
  {
    && |weeks| == count
    && forall w :: 0 <= w < |weeks| ==>
         |weeks[w]| == 7 && forall d :: 0 <= d < 7 ==> weeks[w][d] == start + 7 * w + d
  }

  /** The nested loops of `getCalendarWeeks`: `current` starts at `start`
      and each pushed day is followed by the next one. */
  method BuildWeeks(start: int, weekCount: nat) returns (weeks: seq<seq<int>>)
    ensures IsGrid(weeks, start, weekCount)
  {
    weeks := [];
    var current := start;
    var w := 0;
    while w < weekCount
      invariant 0 <= w <= weekCount
      invariant current == start + 7 * w
      invariant IsGrid(weeks, start, w)
    {
      var week: seq<int> := [];
      var d := 0;
      while d < 7
        invariant 0 <= d <= 7
        invariant current == start + 7 * w + d
        invariant |week| == d
        invariant forall k :: 0 <= k < d ==> week[k] == start + 7 * w + k
      {
        week := week + [current];
        current := current + 1;
        d := d + 1;
      }
      weeks := weeks + [week];
      w := w + 1;
    }
  }

  /** The number of weeks the source always shows. */
  const WeeksShown: nat := 5

  /** `getCalendarWeeks` for the month whose 1st is `firstOfMonth`. */
  method GetCalendarWeeks(firstOfMonth: int) returns (weeks: seq<seq<int>>)
    ensures IsGrid(weeks, GridStart(firstOfMonth), WeeksShown)
  {
    weeks := BuildWeeks(GridStart(firstOfMonth), WeeksShown);
  }

  /** The rows run day after day, and every row starts on a Monday. */
  lemma GridIsConsecutive(weeks: seq<seq<int>>, firstOfMonth: int, count: nat)
    requires IsGrid(weeks, GridStart(firstOfMonth), count)
    ensures forall w, d :: 0 <= w < count && 1 <= d < 7 ==> weeks[w][d] == weeks[w][d - 1] + 1
    ensures forall w :: 1 <= w < count ==> weeks[w][0] == weeks[w - 1][6] + 1
    ensures forall w :: 0 <= w < count ==> Weekday(weeks[w][0]) == 1
  {
    GridStartIsMonday(firstOfMonth);
    var s := GridStart(firstOfMonth);
    forall w | 0 <= w < count
      ensures Weekday(weeks[w][0]) == 1
    {
      assert weeks[w][0] + 4 == (s + 4) + 7 * w;
    }
  }

  /** Some cell of the grid holds `day`. */
  ghost predicate Shows(weeks: seq<seq<int>>, day: int)
  {
    exists w, d :: 0 <= w < |weeks| && 0 <= d < |weeks[w]| && weeks[w][d] == day
  }

  /** A grid shows exactly the days of its range. */
  lemma ShowsIffInRange(weeks: seq<seq<int>>, start: int, count: nat, day: int)
    requires IsGrid(weeks, start, count)
    ensures Shows(weeks, day) <==> start <= day < start + 7 * count
  {
    if start <= day < start + 7 * count {
      var w, d := (day - start) / 7, (day - start) % 7;
      assert weeks[w][d] == day;
    }
  }

  /** Five weeks show every day of a month of `monthLength` days exactly
      when the offset and the length together fit in 35 days. */
  lemma FiveWeeksCoverIff(weeks: seq<seq<int>>, firstOfMonth: int, monthLength: int)
    requires IsGrid(weeks, GridStart(firstOfMonth), WeeksShown) && monthLength >= 1
    ensures (forall day :: firstOfMonth <= day < firstOfMonth + monthLength ==> Shows(weeks, day))
            <==> Offset(firstOfMonth) + monthLength <= 35
  {
    forall day | firstOfMonth <= day < firstOfMonth + monthLength {
      ShowsIffInRange(weeks, GridStart(firstOfMonth), WeeksShown, day);
    }
    var last := firstOfMonth + monthLength - 1;
    ShowsIffInRange(weeks, GridStart(firstOfMonth), WeeksShown, last);
  }

  /** March 2025 begins on day 20148, a Saturday, and has 31 days: its 31st
      is missing from the five weeks shown. */
  lemma FiveWeeksMissMonthEnd(weeks: seq<seq<int>>)
    requires IsGrid(weeks, GridStart(20148), WeeksShown)
    ensures Weekday(20148) == 6 && Offset(20148) == 5
    ensures !Shows(weeks, 20148 + 30)
  {
    ShowsIffInRange(weeks, GridStart(20148), WeeksShown, 20148 + 30);
  }

  /** The number of weeks that reach the month's last day. */
  function WeeksNeeded(firstOfMonth: int, monthLength: nat): nat
  {
    (Offset(firstOfMonth) + monthLength + 6) / 7
  }

  /** The corrected grid: as many weeks as the month needs. */
  method GetCoveringWeeks(firstOfMonth: int, monthLength: nat) returns (weeks: seq<seq<int>>)
    ensures IsGrid(weeks, GridStart(firstOfMonth), WeeksNeeded(firstOfMonth, monthLength))
  {
    weeks := BuildWeeks(GridStart(firstOfMonth), WeeksNeeded(firstOfMonth, monthLength));
  }

  /** The corrected grid shows every day of the month, has no row lying
      wholly after the month, needs at most six rows for months up to 31
      days, and keeps five rows exactly when five were enough. */
  lemma CoveringWeeksShowMonth(weeks: seq<seq<int>>, firstOfMonth: int, monthLength: nat)
    requires IsGrid(weeks, GridStart(firstOfMonth), WeeksNeeded(firstOfMonth, monthLength))
    ensures forall day :: firstOfMonth <= day < firstOfMonth + monthLength ==> Shows(weeks, day)
    ensures WeeksNeeded(firstOfMonth, monthLength) > 0 ==>
              7 * (WeeksNeeded(firstOfMonth, monthLength) - 1) < Offset(firstOfMonth) + monthLength
    ensures monthLength <= 31 ==> WeeksNeeded(firstOfMonth, monthLength) <= 6
    ensures WeeksNeeded(firstOfMonth, monthLength) <= WeeksShown <==> Offset(firstOfMonth) + monthLength <= 35
  {
    var n := WeeksNeeded(firstOfMonth, monthLength);
    var o := Offset(firstOfMonth);
    assert o + monthLength + 6 < 7 * n + 7;
    assert 7 * n <= o + monthLength + 6;
    forall day | firstOfMonth <= day < firstOfMonth + monthLength
      ensures Shows(weeks, day)
    {
      ShowsIffInRange(weeks, GridStart(firstOfMonth), n, day);
    }
  }

  // ---------------------------------------------------------------------
  // Day statistics of a week row
  // ---------------------------------------------------------------------

  const MsPerDay: int := 86400000

  /** The day a timestamp in milliseconds falls on. */
  function DayOf(ms: int): int
  {
    ms / MsPerDay
  }

  function TimeSpentOf(r: QuizResult): int { r.timeSpentSeconds }

  /** The test `isSameDay(new Date(h.completedAt), date)`. */
  function OnDay(day: int): QuizResult -> bool
  {
    (r: QuizResult) => DayOf(r.completedAt) == day
  }

  /** The attempts completed on `day`. */
  function AttemptsOn(history: seq<QuizResult>, day: int): seq<QuizResult>
  {
    Filter(OnDay(day), history)
  }

  /** The positions in the history of the attempts completed on `day`. */
  ghost function DayIndices(history: seq<QuizResult>, day: int): set<int>
  {
    set j | 0 <= j < |history| && DayOf(history[j].completedAt) == day
  }

  /** The seconds spent on the attempts completed on `day`, summed over
      the history from its last entry back. */
  ghost function TimeOn(history: seq<QuizResult>, day: int): int
  {
    if history == [] then 0
    else
      var last := history[|history| - 1];
      TimeOn(history[..|history| - 1], day) + (if DayOf(last.completedAt) == day then last.timeSpentSeconds else 0)
  }

  /** The filtered attempts are as many as the positions on that day, and
      their times add up to the time spent that day. */
  lemma {:induction false} AttemptsOnMeasures(history: seq<QuizResult>, day: int)
    ensures |AttemptsOn(history, day)| == |DayIndices(history, day)|
    ensures SumOf(TimeSpentOf, AttemptsOn(history, day)) == TimeOn(history, day)
    decreases |history|
  {
    if history != [] {
      var n := |history| - 1;
      var init, last := history[..n], history[n];
      assert history == init + [last];
      FilterAppend(OnDay(day), init, [last]);
      AttemptsOnMeasures(init, day);
      var lastKept := Filter(OnDay(day), [last]);
      assert [last][1..] == [];
      SumOfAppend(TimeSpentOf, AttemptsOn(init, day), lastKept);
      DayIndicesOfLast(history, day);
    }
  }

  /** The positions on `day` grow by the last position exactly when the
      last attempt was completed that day. */
  lemma DayIndicesOfLast(history: seq<QuizResult>, day: int)
    requires history != []
    ensures var n := |history| - 1;
            |DayIndices(history, day)| ==
              |DayIndices(history[..n], day)| + (if DayOf(history[n].completedAt) == day then 1 else 0)
  {
    var n := |history| - 1;
    var before := DayIndices(history[..n], day);
    assert n !in before;
    if DayOf(history[n].completedAt) == day {
      assert DayIndices(history, day) == before + {n};
    } else {
      assert DayIndices(history, day) == before;
    }
  }

  /** Some attempt was completed on `day`. */
  ghost predicate ActiveOn(history: seq<QuizResult>, day: int)
  {
    exists j :: 0 <= j < |history| && DayOf(history[j].completedAt) == day
  }

  datatype DayStats = DayStats(date: int, count: nat, totalTime: int, isToday: bool, isCurrentMonth: bool)

  /** One entry of `processedDays`, for a month of `monthLength` days from
      `firstOfMonth`, seen on day `today`. */
  function DayStatsOf(date: int, history: seq<QuizResult>, today: int, firstOfMonth: int, monthLength: int): (s: DayStats)
    ensures s.date == date
    ensures s.count == |DayIndices(history, date)| <= |history|
    ensures s.count > 0 <==> ActiveOn(history, date)
    ensures s.totalTime == TimeOn(history, date)
    ensures (forall j :: 0 <= j < |history| ==> history[j].timeSpentSeconds >= 0) ==> s.totalTime >= 0
    ensures s.isToday <==> date == today
    ensures s.isCurrentMonth <==> firstOfMonth <= date < firstOfMonth + monthLength
  {
    var onDay := AttemptsOn(history, date);
    AttemptsOnMeasures(history, date);
    assert ActiveOn(history, date) ==> onDay != [] by {
      if ActiveOn(history, date) {
        var j :| 0 <= j < |history| && DayOf(history[j].completedAt) == date;
        assert history[j] in onDay;
      }
    }
    assert onDay != [] ==> ActiveOn(history, date) by {
      if onDay != [] {
        assert onDay[0] in history;
      }
    }
    assert (forall j :: 0 <= j < |history| ==> history[j].timeSpentSeconds >= 0) ==> SumOf(TimeSpentOf, onDay) >= 0 by {
      if forall j :: 0 <= j < |history| ==> history[j].timeSpentSeconds >= 0 {
        forall i | 0 <= i < |onDay| ensures TimeSpentOf(onDay[i]) >= 0 {
          assert onDay[i] in history;
        }
        SumOfNonNegative(TimeSpentOf, onDay);
      }
    }
    DayStats(
      date := date,
      count := |onDay|,
      totalTime := SumOf(TimeSpentOf, onDay),
      isToday := date == today,
      isCurrentMonth := firstOfMonth <= date < firstOfMonth + monthLength)
  }

  /** `processedDays` of a week row. */
  function ProcessWeek(week: seq<int>, history: seq<QuizResult>, today: int, firstOfMonth: int, monthLength: int): (days: seq<DayStats>)
    ensures |days| == |week|
    ensures forall i :: 0 <= i < |week| ==> days[i] == DayStatsOf(week[i], history, today, firstOfMonth, monthLength)
  {
    MapSeq((d: int) => DayStatsOf(d, history, today, firstOfMonth, monthLength), week)
  }

  /** `processedDays.every(d => d.count > 0)` */
  predicate IsWeekComplete(days: seq<DayStats>)
  {
    forall i :: 0 <= i < |days| ==> days[i].count > 0
  }

  /** A week is complete exactly when an attempt was completed on each of its days. */
  lemma WeekCompleteIffEveryDayActive(week: seq<int>, history: seq<QuizResult>, today: int, firstOfMonth: int, monthLength: int)
    ensures IsWeekComplete(ProcessWeek(week, history, today, firstOfMonth, monthLength))
            <==> forall i :: 0 <= i < |week| ==> ActiveOn(history, week[i])
  {
  }

  /** The number of entries in each of the five-entry colour arrays. */
  const IntensityLevels: nat := 5

  /** `Math.min(4, day.count)`: always an index into the colour arrays, and
      the count itself below four. */
  function Intensity(count: nat): (r: nat)
    ensures r < IntensityLevels
    ensures count < 4 ==> r == count
    ensures count >= 4 ==> r == IntensityLevels - 1
  {
    Min(4, count)
  }

  /** `Math.floor(totalTime / 60)`: the whole minutes in the total. */
  function TooltipMinutes(totalTime: int): (m: int)
    ensures 60 * m <= totalTime < 60 * m + 60
  {
    totalTime / 60
  }
}
