/**
 * The contribution-statistics calculator of `src/lib/github.ts`:
 * `calculateStats` and its three helpers (current streak, longest streak,
 * most active weekday), and `formatContributionCount`.
 *
 * The clock and the time zone are parameters: `today` is the ISO date the
 * source reads from `new Date()`, and `weekdayOf` is `new Date(date).getDay()`.
 */
module GitHubStats {
  import opened ContributionTypes
  import Decimal

  function Max(a: nat, b: nat): nat { if a >= b then a else b }

  // ---------------------------------------------------------------- streaks

  /** Every day of `days[lo..hi]` has at least one contribution. */
  ghost predicate AllActive(days: seq<Day>, lo: int, hi: int)
    requires 0 <= lo <= hi <= |days|
  {
    forall k :: lo <= k < hi ==> days[k].contributionCount > 0
  }

  /** Every day of `days` is without contributions. */
  ghost predicate NoActivity(days: seq<Day>)
  {
    forall k :: 0 <= k < |days| ==> days[k].contributionCount == 0
  }

  /** `n` is the length of a longest run of consecutive active days of `days`. */
  ghost predicate IsLongestRun(days: seq<Day>, n: nat)
  {
    && (exists lo, hi :: 0 <= lo <= hi <= |days| && hi - lo == n && AllActive(days, lo, hi))
    && (forall lo, hi :: 0 <= lo <= hi <= |days| && AllActive(days, lo, hi) ==> hi - lo <= n)
  }

  lemma AllActivePrefix(days: seq<Day>, n: nat, lo: int, hi: int)
    requires 0 <= lo <= hi <= n <= |days|
    ensures AllActive(days[..n], lo, hi) <==> AllActive(days, lo, hi)
  {
    assert forall k :: lo <= k < hi ==> days[..n][k] == days[k];
  }

  /** The length of the run of active days that ends with the last day of `days`. */
  function TrailingRun(days: seq<Day>): (r: nat)
    ensures r <= |days|
    ensures AllActive(days, |days| - r, |days|)
    ensures r < |days| ==> days[|days| - r - 1].contributionCount == 0
  {
    if |days| == 0 || days[|days| - 1].contributionCount == 0 then 0
    else
      var init := days[..|days| - 1];
      var r := TrailingRun(init);
      AllActivePrefix(days, |days| - 1, |init| - r, |init|);
      r + 1
  }

  /** Any run of active days reaching the end of `days` is at most the trailing run. */
  lemma TrailingRunMaximal(days: seq<Day>, lo: int)
    requires 0 <= lo <= |days| && AllActive(days, lo, |days|)
    ensures |days| - lo <= TrailingRun(days)
  {
    var r := TrailingRun(days);
    if |days| - lo > r {
      assert lo <= |days| - r - 1;
    }
  }

  /** The two properties of `TrailingRun` determine it. */
  lemma TrailingRunUnique(days: seq<Day>, r: nat)
    requires r <= |days| && AllActive(days, |days| - r, |days|)
    requires r < |days| ==> days[|days| - r - 1].contributionCount == 0
    ensures TrailingRun(days) == r
  {
    TrailingRunMaximal(days, |days| - r);
  }

  /** The longest streak, defined by the forward scan of the source. */
  function LongestRun(days: seq<Day>): nat
  {
    if |days| == 0 then 0 else Max(LongestRun(days[..|days| - 1]), TrailingRun(days))
  }

  /** The scan finds a longest run of consecutive active days. */
  lemma {:induction false} LongestRunIsLongest(days: seq<Day>)
    ensures IsLongestRun(days, LongestRun(days))
  {
    var n := LongestRun(days);
    if |days| == 0 {
      assert AllActive(days, 0, 0);
    } else {
      var init := days[..|days| - 1];
      var m := LongestRun(init);
      var t := TrailingRun(days);
      LongestRunIsLongest(init);
      if m >= t {
        var lo, hi :| 0 <= lo <= hi <= |init| && hi - lo == m && AllActive(init, lo, hi);
        AllActivePrefix(days, |init|, lo, hi);
      } else {
        assert AllActive(days, |days| - t, |days|);
      }
      forall lo, hi | 0 <= lo <= hi <= |days| && AllActive(days, lo, hi)
        ensures hi - lo <= n
      {
        if hi <= |init| {
          AllActivePrefix(days, |init|, lo, hi);
        } else {
          TrailingRunMaximal(days, lo);
        }
      }
    }
  }

  /** The longest streak is 0 exactly when no day has a contribution. */
  lemma LongestRunZero(days: seq<Day>)
    ensures LongestRun(days) == 0 <==> NoActivity(days)
  {
    LongestRunIsLongest(days);
    if !NoActivity(days) {
      var k :| 0 <= k < |days| && days[k].contributionCount > 0;
      assert AllActive(days, k, k + 1);
    } else {
      var lo, hi :| 0 <= lo <= hi <= |days| && hi - lo == LongestRun(days) && AllActive(days, lo, hi);
    }
  }

  /** `calculateLongestStreak`: a forward scan with a running counter and a maximum. */
  method CalculateLongestStreak(weeks: seq<Week>) returns (longest: nat)
    ensures longest == LongestRun(Flatten(weeks))
    ensures IsLongestRun(Flatten(weeks), longest)
  {
    var allDays := Flatten(weeks);
    var maxStreak, currentStreak := 0, 0;
    for i := 0 to |allDays|
      invariant currentStreak == TrailingRun(allDays[..i])
      invariant Max(maxStreak, currentStreak) == LongestRun(allDays[..i])
    {
      assert allDays[..i + 1][..i] == allDays[..i];
      if allDays[i].contributionCount > 0 {
        currentStreak := currentStreak + 1;
      } else {
        maxStreak := Max(maxStreak, currentStreak);
        currentStreak := 0;
      }
    }
    assert allDays[..|allDays|] == allDays;
    longest := Max(maxStreak, currentStreak);
    LongestRunIsLongest(allDays);
  }

  /** `allDays.findIndex((day) => day.date === date)`: the first index holding `date`, or -1. */
  function FindDate(days: seq<Day>, date: string): (r: int)
    ensures -1 <= r < |days|
    ensures r >= 0 ==> days[r].date == date
    ensures forall k :: 0 <= k < |days| && (r == -1 || k < r) ==> days[k].date != date
  {
    if |days| == 0 then -1
    else if days[0].date == date then 0
    else
      var r := FindDate(days[1..], date);
      if r == -1 then -1 else r + 1
  }

  /** The current streak: the run of active days ending at the first day dated `today`. */
  function CurrentStreak(days: seq<Day>, today: string): nat
  {
    var t := FindDate(days, today);
    if t == -1 then 0 else TrailingRun(days[..t + 1])
  }

  /** `calculateCurrentStreak`: locate today, then count backwards until a day without contributions. */
  method CalculateCurrentStreak(weeks: seq<Week>, today: string) returns (streak: nat)
    ensures streak == CurrentStreak(Flatten(weeks), today)
  {
    var allDays := Flatten(weeks);
    var todayIndex := FindDate(allDays, today);
    if todayIndex == -1 {
      return 0;
    }
    streak := 0;
    var i := todayIndex;
    while i >= 0
      invariant -1 <= i <= todayIndex
      invariant streak == todayIndex - i
      invariant AllActive(allDays, i + 1, todayIndex + 1)
      decreases i
    {
      if allDays[i].contributionCount > 0 {
        streak := streak + 1;
      } else {
        break;
      }
      i := i - 1;
    }
    StreakAtExit(allDays, todayIndex, i, streak);
  }

  /** Where the backward count stops, it has counted the run of active days ending at index `t`. */
  lemma StreakAtExit(days: seq<Day>, t: nat, i: int, streak: nat)
    requires t < |days| && -1 <= i <= t && streak == t - i
    requires AllActive(days, i + 1, t + 1)
    requires i >= 0 ==> days[i].contributionCount == 0
    ensures streak == TrailingRun(days[..t + 1])
  {
    ghost var upToToday := days[..t + 1];
    assert i >= 0 ==> upToToday[i] == days[i];
    AllActivePrefix(days, t + 1, i + 1, t + 1);
    TrailingRunUnique(upToToday, streak);
  }

  /**
   * The current streak is the length of the active run ending at the first
   * day dated today: all of it active, and the day before it (if any) idle.
   */
  lemma CurrentStreakIsRunEndingToday(days: seq<Day>, today: string)
    ensures var t, s := FindDate(days, today), CurrentStreak(days, today);
      && (t == -1 ==> s == 0)
      && (t >= 0 ==> s <= t + 1 && AllActive(days, t + 1 - s, t + 1))
      && (t >= 0 && s <= t ==> days[t - s].contributionCount == 0)
  {
    var t := FindDate(days, today);
    if t >= 0 {
      var s := CurrentStreak(days, today);
      AllActivePrefix(days, t + 1, t + 1 - s, t + 1);
      if s <= t {
        assert days[..t + 1][t - s] == days[t - s];
      }
    }
  }

  /** The current streak is 0 exactly when today is missing or today has no contributions. */
  lemma CurrentStreakZero(days: seq<Day>, today: string)
    ensures var t := FindDate(days, today);
      CurrentStreak(days, today) == 0 <==> t == -1 || days[t].contributionCount == 0
  {
    var t := FindDate(days, today);
    if t >= 0 {
      assert days[..t + 1][t] == days[t];
    }
  }

  /** Over the same days, the current streak never exceeds the longest streak. */
  lemma CurrentStreakAtMostLongest(days: seq<Day>, today: string)
    ensures CurrentStreak(days, today) <= LongestRun(days)
  {
    var t := FindDate(days, today);
    if t >= 0 {
      var s := CurrentStreak(days, today);
      CurrentStreakIsRunEndingToday(days, today);
      LongestRunIsLongest(days);
      assert AllActive(days, t + 1 - s, t + 1);
    }
  }

  // ------------------------------------------------------ most active weekday

  /** `new Date(date).getDay()`: 0 is Sunday. */
  type Weekday = w: int | 0 <= w < 7

  const DayNames: seq<string> := ["Sunday", "Monday", "Tuesday", "Wednesday", "Thursday", "Friday", "Saturday"]

  /** The contributions of the days of `days` falling on weekday `w`. */
  function WeekdayTotal(days: seq<Day>, weekdayOf: string -> Weekday, w: Weekday): nat
  {
    if |days| == 0 then 0
    else
      var d := days[|days| - 1];
      WeekdayTotal(days[..|days| - 1], weekdayOf, w) + (if weekdayOf(d.date) == w then d.contributionCount else 0)
  }

  lemma WeekdayTotalSnoc(days: seq<Day>, d: Day, weekdayOf: string -> Weekday, w: Weekday)
    ensures WeekdayTotal(days + [d], weekdayOf, w)
         == WeekdayTotal(days, weekdayOf, w) + (if weekdayOf(d.date) == w then d.contributionCount else 0)
  {
    assert (days + [d])[..|days|] == days;
  }

  /** One more day adds its count to its own weekday's bucket and leaves the others alone. */
  lemma BucketStep(days: seq<Day>, d: Day, weekdayOf: string -> Weekday)
    ensures forall w: Weekday :: (WeekdayTotal(days + [d], weekdayOf, w)
      == WeekdayTotal(days, weekdayOf, w) + (if weekdayOf(d.date) == w then d.contributionCount else 0))
  {
    forall w: Weekday {
      WeekdayTotalSnoc(days, d, weekdayOf, w);
    }
  }

  /** The seven weekday buckets, Sunday first. */
  function WeekdayTotals(days: seq<Day>, weekdayOf: string -> Weekday): (t: seq<nat>)
    ensures |t| == 7
    ensures forall w :: 0 <= w < 7 ==> t[w] == WeekdayTotal(days, weekdayOf, w)
  {
    seq(7, (w: int) requires 0 <= w < 7 => WeekdayTotal(days, weekdayOf, w))
  }

  /** `Math.max(...s)` for a non-empty `s`. */
  function MaxOf(s: seq<nat>): (m: nat)
    requires |s| > 0
    ensures forall k :: 0 <= k < |s| ==> s[k] <= m
    ensures exists k :: 0 <= k < |s| && s[k] == m
  {
    if |s| == 1 then s[0]
    else
      var m := MaxOf(s[1..]);
      assert forall k :: 1 <= k < |s| ==> s[k] == s[1..][k - 1];
      if s[0] >= m then s[0] else m
  }

  /** `s.indexOf(x)`: the first index holding `x`, or -1. */
  function IndexOf(s: seq<nat>, x: nat): (i: int)
    ensures -1 <= i < |s|
    ensures i >= 0 ==> s[i] == x
    ensures forall k :: 0 <= k < |s| && (i == -1 || k < i) ==> s[k] != x
  {
    if |s| == 0 then -1
    else if s[0] == x then 0
    else
      var i := IndexOf(s[1..], x);
      if i == -1 then -1 else i + 1
  }

  /** The name of the first weekday whose bucket is largest, or "None" when every bucket is 0. */
  function MostActiveName(totals: seq<nat>): string
    requires |totals| == 7
  {
    var maxTotal := MaxOf(totals);
    if maxTotal == 0 then "None"
    else
      var i := IndexOf(totals, maxTotal);
      if i == -1 then assert false; "None" else DayNames[i]
  }

  function MostActiveDay(days: seq<Day>, weekdayOf: string -> Weekday): string
  {
    MostActiveName(WeekdayTotals(days, weekdayOf))
  }

  /** The inner `forEach` over one week's days: each day's count goes into its weekday's bucket. */
  method AddDays(dayTotals: array<nat>, ghost before: seq<Day>, days: seq<Day>, weekdayOf: string -> Weekday)
    requires dayTotals.Length == 7
    requires forall w :: 0 <= w < 7 ==> dayTotals[w] == WeekdayTotal(before, weekdayOf, w)
    modifies dayTotals
    ensures forall w :: 0 <= w < 7 ==> dayTotals[w] == WeekdayTotal(before + days, weekdayOf, w)
  {
    assert before + days[..0] == before;
    for j := 0 to |days|
      invariant forall w :: 0 <= w < 7 ==> dayTotals[w] == WeekdayTotal(before + days[..j], weekdayOf, w)
    {
      var dayOfWeek := weekdayOf(days[j].date);
      assert before + days[..j + 1] == (before + days[..j]) + [days[j]];
      BucketStep(before + days[..j], days[j], weekdayOf);
      dayTotals[dayOfWeek] := dayTotals[dayOfWeek] + days[j].contributionCount;
    }
    assert days[..|days|] == days;
  }

  /** `calculateMostActiveDay`: fill seven buckets in place, then take the first maximum. */
  method CalculateMostActiveDay(weeks: seq<Week>, weekdayOf: string -> Weekday) returns (name: string)
    ensures name == MostActiveDay(Flatten(weeks), weekdayOf)
  {
    var dayTotals := new nat[7][0, 0, 0, 0, 0, 0, 0];
    for i := 0 to |weeks|
      invariant forall w :: 0 <= w < 7 ==> dayTotals[w] == WeekdayTotal(Flatten(weeks[..i]), weekdayOf, w)
    {
      var days := weeks[i].contributionDays;
      AddDays(dayTotals, Flatten(weeks[..i]), days, weekdayOf);
      assert weeks[..i + 1] == weeks[..i] + [weeks[i]];
      FlattenSnoc(weeks[..i], weeks[i]);
    }
    assert weeks[..|weeks|] == weeks;
    assert dayTotals[..] == WeekdayTotals(Flatten(weeks), weekdayOf);
    var maxTotal := MaxOf(dayTotals[..]);
    if maxTotal == 0 {
      return "None";
    }
    var mostActiveDayIndex := IndexOf(dayTotals[..], maxTotal);
    name := DayNames[mostActiveDayIndex];
  }

  /**
   * "None" exactly when every bucket is 0; otherwise the name of the
   * Sunday-first earliest weekday whose bucket is maximal.
   */
  lemma MostActiveDayIsFirstMaximum(days: seq<Day>, weekdayOf: string -> Weekday)
    ensures var name, t := MostActiveDay(days, weekdayOf), WeekdayTotals(days, weekdayOf);
      && (name == "None" <==> forall w :: 0 <= w < 7 ==> t[w] == 0)
      && (name != "None" ==>
            exists w :: 0 <= w < 7 && name == DayNames[w]
              && (forall v :: 0 <= v < 7 ==> t[v] <= t[w])
              && (forall v :: 0 <= v < w ==> t[v] < t[w]))
  {
    var t := WeekdayTotals(days, weekdayOf);
    var m := MaxOf(t);
    if m != 0 {
      var i := IndexOf(t, m);
      assert |DayNames[i]| != |"None"|;
    }
  }

  /** The seven buckets together hold every contribution of the days. */
  lemma {:induction false} BucketsSumToTotal(days: seq<Day>, weekdayOf: string -> Weekday)
    ensures WeekdayTotal(days, weekdayOf, 0) + WeekdayTotal(days, weekdayOf, 1)
          + WeekdayTotal(days, weekdayOf, 2) + WeekdayTotal(days, weekdayOf, 3)
          + WeekdayTotal(days, weekdayOf, 4) + WeekdayTotal(days, weekdayOf, 5)
          + WeekdayTotal(days, weekdayOf, 6) == TotalCount(days)
  {
    if |days| > 0 {
      BucketsSumToTotal(days[..|days| - 1], weekdayOf);
    }
  }

  lemma {:induction false} TotalCountZero(days: seq<Day>)
    ensures TotalCount(days) == 0 <==> NoActivity(days)
  {
    if |days| > 0 {
      TotalCountZero(days[..|days| - 1]);
    }
  }

  /** "None" is the answer exactly when no day has a contribution. */
  lemma MostActiveDayNone(days: seq<Day>, weekdayOf: string -> Weekday)
    ensures MostActiveDay(days, weekdayOf) == "None" <==> NoActivity(days)
  {
    MostActiveDayIsFirstMaximum(days, weekdayOf);
    BucketsSumToTotal(days, weekdayOf);
    TotalCountZero(days);
  }

  // ------------------------------------------------------------- the summary

  /**
   * `calculateStats`: the three totals are copied from the calendar, the
   * streaks and the most active day are computed from its days, and the two
   * lines-of-code fields are the fixed placeholders "0" and "N/A".
   */
  function CalculateStats(data: Calendar, today: string, weekdayOf: string -> Weekday): (s: Stats)
    ensures s.totalCommits == data.totalCommitContributions
    ensures s.totalPullRequests == data.totalPullRequestContributions
    ensures s.activeRepositories == data.totalRepositoryContributions
    ensures s.totalLinesOfCode == "0" && s.linesByLanguage == "N/A"
    ensures s.currentStreak <= s.longestStreak
    ensures s.longestStreak == 0 <==> NoActivity(Flatten(data.weeks))
    ensures s.mostActiveDay == "None" <==> NoActivity(Flatten(data.weeks))
  {
    var days := Flatten(data.weeks);
    CurrentStreakAtMostLongest(days, today);
    LongestRunZero(days);
    MostActiveDayNone(days, weekdayOf);
    Stats(
      totalCommits := data.totalCommitContributions,
      totalPullRequests := data.totalPullRequestContributions,
      activeRepositories := data.totalRepositoryContributions,
      currentStreak := CurrentStreak(days, today),
      longestStreak := LongestRun(days),
      mostActiveDay := MostActiveDay(days, weekdayOf),
      totalLinesOfCode := "0",
      linesByLanguage := "N/A")
  }

  /** `formatContributionCount`: "1 contribution", otherwise the count and "contributions". */
  function FormatContributionCount(count: nat): (r: string)
    ensures r == "1 contribution" <==> count == 1
    ensures count != 1 ==>
      exists digits :: r == digits + " contributions" && Decimal.IsDecimal(digits) && Decimal.ToNat(digits) == count
  {
    if count == 1 then "1 contribution"
    else
      var digits := Decimal.FromNat(count);
      Decimal.RoundTrip(count);
      assert |digits + " contributions"| != |"1 contribution"|;
      digits + " contributions"
  }
}
