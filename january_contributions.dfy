/**
 * The January report script: it flattens the contribution calendar, keeps
 * the days of January 2026, groups them into Sunday-started weeks while
 * summing their counts, marks each day with an activity indicator and
 * counts the days at each contribution level.
 *
 * The weekday of a date (`new Date(date).getDay()`, which depends on the
 * host's time zone) is the parameter `weekdayOf`, 0 standing for Sunday.
 */
module JanuaryContributions {
  import opened ContributionTypes
  import opened Seqs

  /** The days of all weeks, in order, collected by two nested loops. */
  method FlattenDays(weeks: seq<Week>) returns (allDays: seq<Day>)
    ensures allDays == Flatten(weeks)
  {
    allDays := [];
    for i := 0 to |weeks|
      invariant allDays == Flatten(weeks[..i])
    {
      ghost var before := allDays;
      var days := weeks[i].contributionDays;
      for j := 0 to |days|
        invariant allDays == before + days[..j]
      {
        assert days[..j + 1] == days[..j] + [days[j]];
        allDays := allDays + [days[j]];
      }
      assert days[..|days|] == days;
      assert weeks[..i + 1] == weeks[..i] + [weeks[i]];
      FlattenSnoc(weeks[..i], weeks[i]);
    }
    assert weeks[..|weeks|] == weeks;
  }

  /** The month the script reports on, as the prefix of its ISO dates. */
  const JanuaryPrefix: string := "2026-01-"

  predicate InJanuary(d: Day)
  {
    |JanuaryPrefix| <= |d.date| && d.date[..|JanuaryPrefix|] == JanuaryPrefix
  }

  function JanuaryDays(allDays: seq<Day>): seq<Day>
  {
    Filter(allDays, InJanuary)
  }

  /** The January days are exactly the days of the calendar dated in January 2026. */
  lemma JanuaryDaysExactly(allDays: seq<Day>, d: Day)
    ensures d in JanuaryDays(allDays) <==> d in allDays && InJanuary(d)
  {
    FilterMember(allDays, InJanuary, d);
  }

  /**
   * The weeks the script builds from `days`: a Sunday closes the week being
   * collected (when it holds any day) and opens a new one.
   */
  function Weeks(days: seq<Day>, weekdayOf: string -> int): seq<seq<Day>>
  {
    if |days| == 0 then []
    else
      var w := Weeks(days[..|days| - 1], weekdayOf);
      var d := days[|days| - 1];
      if |w| == 0 || weekdayOf(d.date) == 0 then w + [[d]]
      else w[..|w| - 1] + [w[|w| - 1] + [d]]
  }

  lemma WeeksSnoc(days: seq<Day>, d: Day, weekdayOf: string -> int)
    ensures var w := Weeks(days, weekdayOf);
      Weeks(days + [d], weekdayOf) ==
        if |w| == 0 || weekdayOf(d.date) == 0 then w + [[d]]
        else w[..|w| - 1] + [w[|w| - 1] + [d]]
  {
    assert (days + [d])[..|days|] == days;
  }

  /** A Sunday after some days opens a new week. */
  lemma WeeksSunday(days: seq<Day>, d: Day, weekdayOf: string -> int, done: seq<seq<Day>>, current: seq<Day>)
    requires Weeks(days, weekdayOf) == done + [current]
    requires weekdayOf(d.date) == 0
    ensures Weeks(days + [d], weekdayOf) == (done + [current]) + [[d]]
  {
    WeeksSnoc(days, d, weekdayOf);
  }

  /** Any other day joins the week being collected. */
  lemma WeeksWeekday(days: seq<Day>, d: Day, weekdayOf: string -> int, done: seq<seq<Day>>, current: seq<Day>)
    requires Weeks(days, weekdayOf) == done + [current]
    requires weekdayOf(d.date) != 0
    ensures Weeks(days + [d], weekdayOf) == done + [current + [d]]
  {
    WeeksSnoc(days, d, weekdayOf);
    var w := done + [current];
    assert w[..|w| - 1] == done;
  }

  /** A week is never empty and only its first day may be a Sunday. */
  ghost predicate IsWeek(week: seq<Day>, weekdayOf: string -> int)
  {
    |week| > 0 && forall j :: 1 <= j < |week| ==> weekdayOf(week[j].date) != 0
  }

  /** Every week is a week, and every week but the first starts on a Sunday. */
  ghost predicate WellGrouped(weeks: seq<seq<Day>>, weekdayOf: string -> int)
  {
    forall k :: 0 <= k < |weeks| ==>
      IsWeek(weeks[k], weekdayOf) && (k > 0 ==> weekdayOf(weeks[k][0].date) == 0)
  }

  /** Appending to the last week appends to the days laid end to end. */
  lemma ConcatExtendLast(front: seq<seq<Day>>, last: seq<Day>, d: Day)
    ensures Concat(front + [last + [d]]) == Concat(front + [last]) + [d]
  {
    ConcatSnoc(front, last);
    ConcatSnoc(front, last + [d]);
    assert Concat(front) + (last + [d]) == (Concat(front) + last) + [d];
  }

  /** Laying the weeks end to end gives back the days. */
  lemma {:induction false} WeeksCoverDays(days: seq<Day>, weekdayOf: string -> int)
    ensures Concat(Weeks(days, weekdayOf)) == days
    ensures |Weeks(days, weekdayOf)| == 0 <==> |days| == 0
  {
    if |days| > 0 {
      var init, d := days[..|days| - 1], days[|days| - 1];
      assert days == init + [d];
      var w := Weeks(init, weekdayOf);
      WeeksCoverDays(init, weekdayOf);
      WeeksSnoc(init, d, weekdayOf);
      if |w| == 0 || weekdayOf(d.date) == 0 {
        ConcatSnoc(w, [d]);
      } else {
        var front, last := w[..|w| - 1], w[|w| - 1];
        assert w == front + [last];
        ConcatExtendLast(front, last, d);
      }
    }
  }

  /** The weeks are well grouped: non-empty, Sunday-started after the first, no Sunday inside. */
  lemma {:induction false} WeeksAreWellGrouped(days: seq<Day>, weekdayOf: string -> int)
    ensures WellGrouped(Weeks(days, weekdayOf), weekdayOf)
  {
    if |days| > 0 {
      var init, d := days[..|days| - 1], days[|days| - 1];
      var w := Weeks(init, weekdayOf);
      WeeksAreWellGrouped(init, weekdayOf);
      var r := Weeks(days, weekdayOf);
      if |w| == 0 || weekdayOf(d.date) == 0 {
        assert r == w + [[d]];
        forall k | 0 <= k < |r|
          ensures IsWeek(r[k], weekdayOf) && (k > 0 ==> weekdayOf(r[k][0].date) == 0)
        {
          if k < |w| {
            assert r[k] == w[k];
          }
        }
      } else {
        var last := w[|w| - 1];
        assert r == w[..|w| - 1] + [last + [d]];
        assert IsWeek(last, weekdayOf);
        forall k | 0 <= k < |r|
          ensures IsWeek(r[k], weekdayOf) && (k > 0 ==> weekdayOf(r[k][0].date) == 0)
        {
          if k < |w| - 1 {
            assert r[k] == w[k];
          } else {
            assert r[k] == last + [d];
            assert r[k][0] == last[0];
          }
        }
      }
    }
  }

  /**
   * The script's grouping loop: it walks the January days, closing the
   * current week before each Sunday, and adds up the counts on the way.
   */
  method GroupIntoWeeks(days: seq<Day>, weekdayOf: string -> int)
    returns (weeks: seq<seq<Day>>, total: nat)
    ensures weeks == Weeks(days, weekdayOf)
    ensures Concat(weeks) == days
    ensures WellGrouped(weeks, weekdayOf)
    ensures total == TotalCount(days)
  {
    weeks, total := [], 0;
    var currentWeek: seq<Day> := [];
    for i := 0 to |days|
      invariant (|currentWeek| == 0) == (i == 0)
      invariant i == 0 ==> weeks == []
      invariant i > 0 ==> Weeks(days[..i], weekdayOf) == weeks + [currentWeek]
      invariant total == TotalCount(days[..i])
    {
      var day := days[i];
      assert days[..i + 1] == days[..i] + [day];
      TotalCountSnoc(days[..i], day);
      if weekdayOf(day.date) == 0 && |currentWeek| > 0 {
        WeeksSunday(days[..i], day, weekdayOf, weeks, currentWeek);
        weeks := weeks + [currentWeek];
        currentWeek := [day];
      } else if |currentWeek| > 0 {
        WeeksWeekday(days[..i], day, weekdayOf, weeks, currentWeek);
        currentWeek := currentWeek + [day];
      } else {
        WeeksSnoc(days[..i], day, weekdayOf);
        currentWeek := [day];
      }
      total := total + day.contributionCount;
    }
    if |currentWeek| > 0 {
      weeks := weeks + [currentWeek];
    }
    assert days[..|days|] == days;
    WeeksCoverDays(days, weekdayOf);
    WeeksAreWellGrouped(days, weekdayOf);
  }

  /** The number of green squares shown beside a day; 0 stands for the white square. */
  function ActivityIndicator(count: nat): (squares: nat)
    ensures squares <= 4
    ensures squares == 0 <==> count == 0
    ensures squares == 1 <==> 1 <= count < 5
    ensures squares == 2 <==> 5 <= count < 15
    ensures squares == 3 <==> 15 <= count < 25
    ensures squares == 4 <==> 25 <= count
  {
    if count == 0 then 0
    else if count < 5 then 1
    else if count < 15 then 2
    else if count < 25 then 3
    else 4
  }

  /** More contributions never show fewer squares. */
  lemma IndicatorMonotone(a: nat, b: nat)
    requires a <= b
    ensures ActivityIndicator(a) <= ActivityIndicator(b)
  {
  }

  /** The noun after a day's count: singular exactly for one contribution. */
  function ContributionWord(count: nat): (word: string)
    ensures word == "contribution" <==> count == 1
    ensures word == "contributions" <==> count != 1
  {
    if count == 1 then "contribution" else "contributions"
  }

  /** The five contribution levels of the breakdown. */
  predicate NoActivity(d: Day) { d.contributionCount == 0 }
  predicate Low(d: Day) { 1 <= d.contributionCount <= 9 }
  predicate Medium(d: Day) { 10 <= d.contributionCount <= 19 }
  predicate High(d: Day) { 20 <= d.contributionCount <= 29 }
  predicate VeryHigh(d: Day) { d.contributionCount >= 30 }

  /** One line of the breakdown: a level's name and its number of days. */
  datatype LevelCount = LevelCount(level: string, count: nat)

  const LevelLabels: seq<string> :=
    ["No activity (0)", "Low (1-9)", "Medium (10-19)", "High (20-29)", "Very High (30+)"]

  /** The breakdown's levels, in the script's order, each with its label. */
  function LevelCounts(days: seq<Day>): (r: seq<LevelCount>)
    ensures |r| == 5
    ensures forall k :: 0 <= k < 5 ==> r[k].level == LevelLabels[k]
  {
    [ LevelCount("No activity (0)", |Filter(days, NoActivity)|),
      LevelCount("Low (1-9)", |Filter(days, Low)|),
      LevelCount("Medium (10-19)", |Filter(days, Medium)|),
      LevelCount("High (20-29)", |Filter(days, High)|),
      LevelCount("Very High (30+)", |Filter(days, VeryHigh)|) ]
  }

  /** Every day falls in exactly one level, so the five counts add up to the number of days. */
  lemma {:induction false} LevelsPartitionDays(days: seq<Day>)
    ensures var r := LevelCounts(days);
      r[0].count + r[1].count + r[2].count + r[3].count + r[4].count == |days|
  {
    if |days| > 0 {
      LevelsPartitionDays(days[..|days| - 1]);
    }
  }

  /** The level of a count, by tens: 0 alone, then 1-9, 10-19, 20-29, and 30 or more. */
  function LevelOf(count: nat): (k: nat)
    ensures k < 5
    ensures k == 0 <==> count == 0
  {
    if count == 0 then 0 else if count >= 30 then 4 else count / 10 + 1
  }

  function InLevel(k: nat): Day -> bool
  {
    (d: Day) => LevelOf(d.contributionCount) == k
  }

  lemma {:induction false} FilterSamePredicate(days: seq<Day>, p: Day -> bool, q: Day -> bool)
    requires forall d :: p(d) == q(d)
    ensures Filter(days, p) == Filter(days, q)
  {
    if |days| > 0 {
      FilterSamePredicate(days[..|days| - 1], p, q);
    }
  }

  /** Level k of the breakdown counts exactly the days whose count lies in the k-th band. */
  lemma LevelCountsAreBandSizes(days: seq<Day>)
    ensures forall k :: 0 <= k < 5 ==> LevelCounts(days)[k].count == |Filter(days, InLevel(k))|
  {
    FilterSamePredicate(days, NoActivity, InLevel(0));
    FilterSamePredicate(days, Low, InLevel(1));
    FilterSamePredicate(days, Medium, InLevel(2));
    FilterSamePredicate(days, High, InLevel(3));
    FilterSamePredicate(days, VeryHigh, InLevel(4));
  }

  function IsShown(c: LevelCount): bool { c.count > 0 }

  /** The breakdown lines printed: the levels that hold at least one day, in order. */
  function Breakdown(days: seq<Day>): seq<LevelCount>
  {
    Filter(LevelCounts(days), IsShown)
  }

  /** A level is printed exactly when some day has that level. */
  lemma BreakdownShowsOccupiedLevels(days: seq<Day>, c: LevelCount)
    ensures c in Breakdown(days) <==> c in LevelCounts(days) && c.count > 0
  {
    FilterMember(LevelCounts(days), IsShown, c);
  }

  /** What the script reports. */
  datatype Report = Report(
    weeks: seq<seq<Day>>,
    januaryTotal: nat,
    yearTotal: nat,
    breakdown: seq<LevelCount>)

  /** The report over a calendar the query returned. */
  method JanuaryReport(calendar: Calendar, weekdayOf: string -> int) returns (report: Report)
    ensures Concat(report.weeks) == JanuaryDays(Flatten(calendar.weeks))
    ensures WellGrouped(report.weeks, weekdayOf)
    ensures report.januaryTotal == TotalCount(JanuaryDays(Flatten(calendar.weeks)))
    ensures report.yearTotal == calendar.totalContributions
    ensures report.breakdown == Breakdown(JanuaryDays(Flatten(calendar.weeks)))
  {
    var allDays := FlattenDays(calendar.weeks);
    var januaryDays := Filter(allDays, InJanuary);
    var weeks, total := GroupIntoWeeks(januaryDays, weekdayOf);
    report := Report(weeks, total, calendar.totalContributions, Breakdown(januaryDays));
  }
}
