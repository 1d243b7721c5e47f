/**
 * The contribution calendar and the statistics derived from it, as the
 * GitHub GraphQL API delivers them (ContributionDay, ContributionWeek,
 * ContributionCalendar) and as the site displays them (ContributionStats).
 */
module ContributionTypes {

  /** One day of the calendar; `date` is an ISO date `YYYY-MM-DD`, `color` a hex colour. */
  datatype Day = Day(date: string, contributionCount: nat, color: string)

  /** One column of the calendar, Sunday first (the API may deliver fewer than seven days). */
  datatype Week = Week(contributionDays: seq<Day>)

  datatype Calendar = Calendar(
    totalContributions: nat,
    totalCommitContributions: nat,
    totalPullRequestContributions: nat,
    totalRepositoryContributions: nat,
    weeks: seq<Week>)

  datatype Stats = Stats(
    totalCommits: nat,
    totalPullRequests: nat,
    activeRepositories: nat,
    currentStreak: nat,
    longestStreak: nat,
    mostActiveDay: string,
    totalLinesOfCode: string,
    linesByLanguage: string)

  /** `weeks.flatMap((week) => week.contributionDays)`. */
  function Flatten(weeks: seq<Week>): seq<Day>
  {
    if |weeks| == 0 then [] else Flatten(weeks[..|weeks| - 1]) + weeks[|weeks| - 1].contributionDays
  }

  lemma FlattenSnoc(weeks: seq<Week>, w: Week)
    ensures Flatten(weeks + [w]) == Flatten(weeks) + w.contributionDays
  {
    assert (weeks + [w])[..|weeks|] == weeks;
  }

  /** The sum of the counts of `days`. */
  function TotalCount(days: seq<Day>): nat
  {
    if |days| == 0 then 0 else TotalCount(days[..|days| - 1]) + days[|days| - 1].contributionCount
  }

  lemma TotalCountSnoc(days: seq<Day>, d: Day)
    ensures TotalCount(days + [d]) == TotalCount(days) + d.contributionCount
  {
    assert (days + [d])[..|days|] == days;
  }
}
