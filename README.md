# Portfolio site: contribution statistics and UI rules in Dafny

This project models the logic of a personal portfolio site: a Next.js application that shows the owner's
GitHub activity, projects, skills and reading list. It covers these parts:

- **Contribution statistics** (`src/lib/github.ts`):
  - the classification of the GraphQL contributions response;
  - the current streak, the longest streak and the most active weekday computed from the contribution calendar;
  - the per-language byte tally, its conversion to lines, the stable top-three ranking and its formatting;
  - the fallback policy of the line-count fetcher, which never throws.
- **Small rules in the user interface**:
  - the dark-theme colour remapping and the month-label row of the contribution graph;
  - the project type guard, the progress filter and the progress sort;
  - the progress colour bands;
  - the active-link prefix rule;
  - skill grouping by category and the grid column defaults.
- **Four state machines of React components**, modelled as classes whose fields the methods update:
  - the reading carousel index, which wraps around and resets when the list length changes;
  - the project selection toggle;
  - the sidebar's error flag;
  - the mobile drawer, with its open flag and the body scroll lock.
- **The January report script** (`scripts/fetch-january-contributions.ts`):
  - flattening the calendar and keeping the January days;
  - grouping them into Sunday-started weeks with a running total;
  - the per-day activity indicator and the five activity levels.

The host clock, the timezone and the network do not appear in the model. They are parameters:
- `today` is the current date string;
- `weekdayOf` and `monthOf` map a date string to its weekday or month;
- `respond` maps a request to the transport outcome.

Where the source loops and mutates, the model is a method with loop invariants. Each such method is proved equal to a
recursive specification function, and the properties the site relies on are proved as lemmas about that function.

Files, one module each:

| file | models |
|---|---|
| `contribution_types.dfy` | `src/types/contributions.ts` |
| `github_stats.dfy` | streaks, weekday buckets and `calculateStats` |
| `language_summary.dfy` | the language aggregation of `fetchRepositoryLineCounts` |
| `github_fetch.dfy` | both fetchers' error and fallback behaviour |
| `contribution_graph.dfy` | `ContributionGraph.tsx` |
| `projects.dfy` | `src/data/projects.ts` |
| `project_card.dfy` | `ProjectCard.tsx` |
| `nav_link.dfy` | `NavLink.tsx` |
| `reading_section.dfy` | `ReadingSection.tsx` |
| `skills_grid.dfy` | `SkillsGrid.tsx` |
| `projects_page.dfy` | `src/app/projects/page.tsx` |
| `project_sidebar.dfy` | `ProjectSidebar.tsx` |
| `mobile_nav.dfy` | `MobileNav.tsx` |
| `january_contributions.dfy` | the January report script |

These files hold shared helpers:
- `outcomes.dfy`: Option and Result;
- `seqs.dfy`: filter, distinct and concat;
- `decimal.dfy`: decimal rendering of naturals, with its round trip;
- `stable_sort.dfy`: a stable descending insertion sort, standing in for `Array.prototype.sort`.

## Model

| member | source | states |
|---|---|---|
| Decimal.FromNat | src/lib/github.ts:322 | the decimal rendering of a count is a non-empty digit string with no leading zero |
| Decimal.RoundTrip | src/lib/github.ts:322 | reading back the rendering of `n` gives `n` |
| Decimal.Injective | src/lib/github.ts:322 | distinct counts render differently |
| ContributionTypes.FlattenSnoc | src/lib/github.ts:242 | flattening the weeks appends each week's days in order |
| GitHubStats.TrailingRun | src/lib/github.ts:250-257 | the counted run is all active, and the day before it (if any) has no contributions |
| GitHubStats.TrailingRunMaximal | src/lib/github.ts:250-257 | every all-active suffix is at most as long as the trailing run |
| GitHubStats.TrailingRunUnique | src/lib/github.ts:250-257 | an active suffix bounded by an inactive day is the trailing run |
| GitHubStats.LongestRunIsLongest | src/lib/github.ts:271-286 | the longest streak is the length of an all-active window, and no all-active window is longer |
| GitHubStats.LongestRunZero | src/lib/github.ts:271-286 | the longest streak is 0 iff every day has count 0 |
| GitHubStats.CalculateLongestStreak | src/lib/github.ts:271-286 | the running counter and maximum over the flattened days yield the longest run |
| GitHubStats.FindDate | src/lib/github.ts:246-247 | `findIndex`: -1 when no day has today's date, otherwise the first such index |
| GitHubStats.CalculateCurrentStreak | src/lib/github.ts:240-260 | the backward walk from today's index returns the current-streak specification |
| GitHubStats.CurrentStreakIsRunEndingToday | src/lib/github.ts:246-257 | the streak is 0 without today; otherwise it is at most todayIndex+1, all-active and ended by an inactive day |
| GitHubStats.CurrentStreakZero | src/lib/github.ts:246-247 | the streak is 0 iff today is absent or today's first day has count 0 |
| GitHubStats.CurrentStreakAtMostLongest | src/lib/github.ts:240-286 | the current streak never exceeds the longest streak |
| GitHubStats.WeekdayTotals | src/lib/github.ts:298-306 | seven buckets, bucket `w` holding the contributions of the days falling on weekday `w` |
| GitHubStats.AddDays | src/lib/github.ts:301-306 | adding the days of a week to the seven buckets keeps every bucket equal to its weekday total |
| GitHubStats.CalculateMostActiveDay | src/lib/github.ts:297-313 | the bucket loop and the first-maximum lookup give the most-active-day specification |
| GitHubStats.MaxOf | src/lib/github.ts:308 | `Math.max(...dayTotals)` bounds every bucket and is attained |
| GitHubStats.IndexOf | src/lib/github.ts:311 | `indexOf`: the first position holding the value, or -1 |
| GitHubStats.MostActiveDayIsFirstMaximum | src/lib/github.ts:297-313 | "None" iff all seven totals are 0; otherwise the Sunday-first earliest weekday with the maximal total |
| GitHubStats.BucketsSumToTotal | src/lib/github.ts:298-306 | the seven buckets sum to the total contribution count |
| GitHubStats.TotalCountZero | src/lib/github.ts:298-306 | the total count is 0 iff no day has a contribution |
| GitHubStats.MostActiveDayNone | src/lib/github.ts:308-309 | the most active day is "None" iff no day has a contribution |
| GitHubStats.CalculateStats | src/lib/github.ts:218-229 | copies the commit, pull-request and repository totals, sets "0" and "N/A", current streak ≤ longest, and zero streak and "None" exactly when nothing was contributed |
| GitHubStats.FormatContributionCount | src/lib/github.ts:321-323 | "1 contribution" iff the count is 1, otherwise the decimal count followed by " contributions" |
| LanguageSummary.AllEdgesSnoc | src/lib/github.ts:426-434 | the nested loops visit each repository's edges in order |
| LanguageSummary.LanguageBytesSnoc | src/lib/github.ts:431-432 | a language's bytes grow by the size of each edge carrying its name |
| LanguageSummary.OrderedMap.Set | src/lib/github.ts:432 | `Map.set` keeps insertion order, appending only a new key, and overwrites the value |
| LanguageSummary.TrackStep | src/lib/github.ts:430-433 | one `set(name, (get(name) \|\| 0) + size)` keeps the map equal to the tally of the edges seen so far |
| LanguageSummary.TrackedEntries | src/lib/github.ts:439 | the map's entries are the tally: languages in first-appearance order with their summed bytes |
| LanguageSummary.AggregateLanguages | src/lib/github.ts:426-434 | the nested aggregation loops compute the tally of all edges |
| LanguageSummary.NoEdgeNoBytes | src/lib/github.ts:426-434 | a language with no edge has no bytes |
| LanguageSummary.TotalBytesOfTally | src/lib/github.ts:436-437 | the summed bytes of the tally equal the summed sizes of all edges |
| LanguageSummary.Lines | src/lib/github.ts:441 | `Math.round(bytes / 40)`: the nearest integer, halves rounding up |
| LanguageSummary.Ranked | src/lib/github.ts:439-441 | each language keeps its name and bytes and gets its rounded line count |
| LanguageSummary.RankingIsStablePermutation | src/lib/github.ts:441 | the sort is a permutation, and languages with equal lines keep their first-appearance order |
| LanguageSummary.TopLanguagesAreTheLargest | src/lib/github.ts:441-443 | at most three languages, a prefix of the sorted list, non-increasing in lines, none smaller than any left out |
| LanguageSummary.FormatNumber | src/lib/github.ts:360-365 | below 1000 the plain decimal number; from 1000 on a string ending in "k" |
| LanguageSummary.Describe | src/lib/github.ts:444-446 | each entry is the language's name, then " (", then its formatted line count, then ")" |
| LanguageSummary.DescribeShowsCount | src/lib/github.ts:445 | below 1000 lines, the text inside the parentheses reads back as the language's line count |
| LanguageSummary.Join | src/lib/github.ts:448 | the joined string starts with the first part, ends with the last, and is as long as all parts plus one separator between each pair |
| LanguageSummary.JoinSnoc | src/lib/github.ts:448 | joining one more part appends the separator and that part |
| LanguageSummary.LinesByLanguageNotAvailable | src/lib/github.ts:426-448 | the summary is "N/A" iff the repositories have no language edge |
| LanguageSummary.TallyEmpty | src/lib/github.ts:426-439 | the tally is empty iff there are no edges |
| LanguageSummary.NotAvailableWithoutLanguages | src/lib/github.ts:443-448 | "N/A" iff the tally is empty, since every described entry ends in ")" |
| GitHubFetch.RequestFor | src/lib/github.ts:130-144 | the Authorization header is "Bearer " followed by the token |
| GitHubFetch.Receive | src/lib/github.ts:147-161 | the data is received iff the response is 2xx, parses and has no `errors`; an HTTP error iff the status is not 2xx |
| GitHubFetch.HttpErrorMessage | src/lib/github.ts:147-152 | the message holds the decimal status, the status text and the body text |
| GitHubFetch.FirstErrorMessage | src/lib/github.ts:159-161 | the first error's non-empty message, otherwise "Unknown error" |
| GitHubFetch.CalendarOf | src/lib/github.ts:164-166 | a calendar exists iff user, contributionsCollection and contributionCalendar are all present |
| GitHubFetch.FetchGitHubContributions | src/lib/github.ts:106-116 | a missing or empty token fails with the token message, whatever the server would answer |
| GitHubFetch.ContributionsSucceedExactly | src/lib/github.ts:106-200 | success iff token, 2xx, JSON, no errors and a complete structure; the totals and weeks are copied into the calendar |
| GitHubFetch.GraphQLErrorsWin | src/lib/github.ts:159-161 | a 2xx response carrying `errors` fails with "GitHub GraphQL error: " and the first message |
| GitHubFetch.NodesOf | src/lib/github.ts:420-422 | repository nodes exist iff the response was received with data, user, repositories and nodes |
| GitHubFetch.FetchRepositoryLineCounts | src/lib/github.ts:379-459 | the fetcher returns the line-count specification and never throws |
| GitHubFetch.LineCountsFallBack | src/lib/github.ts:385-422 | a missing token, a rejected request, a non-2xx status, unparsable JSON, GraphQL errors or missing nodes all give {"0", "N/A"} |
| GitHubFetch.SummaryIsFallbackExactlyWithoutEdges | src/lib/github.ts:426-451 | a successful fetch gives {"0", "N/A"} iff there are no language edges |
| ContributionGraph.ContributionColor | src/components/ContributionGraph/ContributionGraph.tsx:22-36 | empty gives "#161b22", the five light colours map to their dark counterparts, anything else passes through |
| ContributionGraph.ContributionColorIdempotent | src/components/ContributionGraph/ContributionGraph.tsx:27-35 | remapping twice is remapping once |
| ContributionGraph.ContributionColorIsDarkOrUnmapped | src/components/ContributionGraph/ContributionGraph.tsx:22-36 | a result is the empty colour, a dark colour, or an unmapped input |
| ContributionGraph.LastMonth | src/components/ContributionGraph/ContributionGraph.tsx:41-66 | `lastMonth` is unset iff no week so far has a day |
| ContributionGraph.Label | src/components/ContributionGraph/ContributionGraph.tsx:43-66 | an empty week stays null, and any label is a month name |
| ContributionGraph.LastMonthStep | src/components/ContributionGraph/ContributionGraph.tsx:43-65 | an empty week leaves `lastMonth` alone; a non-empty one sets it to its first day's month |
| ContributionGraph.GetMonthLabelRow | src/components/ContributionGraph/ContributionGraph.tsx:38-70 | a fresh row with one slot per week, slot `i` holding week `i`'s label |
| ContributionGraph.LastMonthAllEmpty | src/components/ContributionGraph/ContributionGraph.tsx:43-44 | weeks without days leave `lastMonth` unset |
| ContributionGraph.FirstNonEmptyWeekLabelled | src/components/ContributionGraph/ContributionGraph.tsx:46-66 | the first week with a day is labelled with its month |
| ContributionGraph.LastMonthSkipsEmpty | src/components/ContributionGraph/ContributionGraph.tsx:43-44 | empty weeks after a non-empty one do not change `lastMonth` |
| ContributionGraph.LabelMarksMonthChange | src/components/ContributionGraph/ContributionGraph.tsx:46-66 | a week is labelled iff its month differs from that of the previous non-empty week |
| ContributionGraph.StreakText | src/components/ContributionGraph/ContributionGraph.tsx:112 | "1 day" iff the streak is 1, otherwise the decimal streak followed by " days" |
| Projects.ToJs | src/data/projects.ts:9-18 | a project is an object with exactly the four declared properties |
| Projects.FromJs | src/data/projects.ts:59-74 | a project is read back iff the guard accepts the value, and then its progress lies in [0, 100] |
| Projects.GuardRoundTrip | src/data/projects.ts:59-74 | the guard accepts a project iff 0 ≤ mvpProgress ≤ 100, and then reading it back gives the project |
| Projects.AllProjectsValid | src/data/projects.ts:24-53 | every sample project passes the guard, and the ids are distinct |
| Projects.ByProgressExactly | src/data/projects.ts:81-83 | a project is returned iff it is in the list with mvpProgress ≥ the minimum |
| Projects.ByProgressKeepsOrder | src/data/projects.ts:81-83 | filtering distributes over concatenation, so the original order is kept |
| Projects.RaisingThresholdNarrows | src/data/projects.ts:81-83 | a higher minimum returns a filtered subsequence of the lower minimum's result |
| Projects.SortedByProgress | src/data/projects.ts:89-91 | a permutation of the input, non-increasing in mvpProgress; the input itself is a value and is unchanged |
| Projects.SortedByProgressIsStable | src/data/projects.ts:90 | projects with equal progress keep their relative order |
| Projects.SortedSampleOrder | src/data/projects.ts:24-53 | the sample projects sort as fitness, e-commerce, task management, AI content |
| StableSort.Sort | src/data/projects.ts:90 | the sort's result is non-increasing in the key and a permutation of its input |
| StableSort.SortIsStable | src/lib/github.ts:441 | for every key value, the elements carrying it keep their order |
| StableSort.SortOfSorted | src/data/projects.ts:90 | sorting an already sorted sequence changes nothing |
| ProjectCard.ProgressColor | src/components/ProjectCard.tsx:41-45 | success iff ≥ 80, primary iff in [50, 80), secondary iff < 50 |
| ProjectCard.ProgressColorMonotone | src/components/ProjectCard.tsx:41-45 | raising the progress never lowers the band |
| ProjectCard.RenderProgress | src/components/ProjectCard.tsx:119-136 | the label and the bar show the same value in the same colour |
| NavLink.ActiveOnItself | src/components/navigation/NavLink.tsx:21 | every link is active on its own path |
| NavLink.HomeOnlyOnRoot | src/components/navigation/NavLink.tsx:21 | "/" is active iff the pathname is exactly "/" |
| NavLink.ActiveBelow | src/components/navigation/NavLink.tsx:21 | any other link is active on every path extending it |
| NavLink.PrefixIgnoresSegments | src/components/navigation/NavLink.tsx:21 | the prefix test is not segment-aware: "/projects" is active on "/projects-archive" |
| NavLink.RenderNavLink | src/components/navigation/NavLink.tsx:62-94 | aria-current "page" iff active and absent otherwise; external links get `_blank` and `noopener noreferrer`; the underline is full iff active |
| ReadingSection.NextIndex | src/components/ReadingSection.tsx:56-58 | the next index stays in range |
| ReadingSection.PreviousIndex | src/components/ReadingSection.tsx:52-54 | the previous index stays in range |
| ReadingSection.NextPreviousInverse | src/components/ReadingSection.tsx:52-58 | next then previous, and previous then next, restore any in-range index |
| ReadingSection.NextTimesClimbs | src/components/ReadingSection.tsx:56-58 | below the last index, each next increments |
| ReadingSection.NextTimesCompose | src/components/ReadingSection.tsx:56-58 | a steps, then b steps, equal a+b steps |
| ReadingSection.NextAroundTheRing | src/components/ReadingSection.tsx:56-58 | `books.length` nexts return to the start |
| ReadingSection.View | src/components/ReadingSection.tsx:46-50 | nothing for no books; safeIndex = min(index, length−1); arrows and dots only for two or more books, with only the dot at safeIndex highlighted |
| ReadingSection.ReadingCarousel.constructor | src/components/ReadingSection.tsx:36-37 | the index starts at 0 and the remembered length is the initial one |
| ReadingSection.ReadingCarousel.Render | src/components/ReadingSection.tsx:39-50 | a changed length resets the index to 0 and is remembered; the view is taken from the index before the reset |
| ReadingSection.ReadingCarousel.SafeIndex | src/components/ReadingSection.tsx:50 | safeIndex lies in [0, length−1], and equals the index when that is in range |
| ReadingSection.ReadingCarousel.Previous | src/components/ReadingSection.tsx:52-54 | the index moves to the previous one, wrapping from 0 to length−1 |
| ReadingSection.ReadingCarousel.Next | src/components/ReadingSection.tsx:56-58 | the index moves to the next one, wrapping from length−1 to 0 |
| ReadingSection.ReadingCarousel.DotClick | src/components/ReadingSection.tsx:60-62 | the index becomes the clicked dot, which is then the highlighted one |
| SkillsGrid.GroupByCategory | src/components/SkillsGrid.tsx:80-95 | the reduce and `Object.entries` give the group specification |
| SkillsGrid.SkillInItsOwnGroup | src/components/SkillsGrid.tsx:82-91 | a skill is in a group iff its category is the group's |
| SkillsGrid.GroupsByFirstAppearance | src/components/SkillsGrid.tsx:82-95 | groups follow first appearance, every category has one group, no category repeats, and no group is empty |
| SkillsGrid.GroupsPartitionSkills | src/components/SkillsGrid.tsx:82-91 | the concatenated groups are a permutation of the input skills |
| SkillsGrid.OrElse | src/components/SkillsGrid.tsx:111-113 | `count \|\| fallback`: a missing or zero count gives the fallback |
| SkillsGrid.ColumnDefaults | src/components/SkillsGrid.tsx:18-22 | no prop gives 1, 2, 2; a prop with every count missing or zero gives 1, 2, 3; a non-zero count is used as given |
| SkillsGrid.RenderSkillsGrid | src/components/SkillsGrid.tsx:80-139 | ungrouped mode lists the skills in input order; grouped mode shows the category groups |
| ProjectsPage.NextSelection | src/app/projects/page.tsx:13-15 | selecting from nothing selects; the same id deselects; another id replaces |
| ProjectsPage.ClickFlipsCard | src/app/projects/page.tsx:13-15 | a click flips the clicked card's expansion; a second click on it undoes the first |
| ProjectsPage.AtMostOneExpanded | src/app/projects/page.tsx:51 | with distinct ids, at most one card is expanded |
| ProjectsPage.ProjectsPage.constructor | src/app/projects/page.tsx:11 | nothing is selected initially |
| ProjectsPage.ProjectsPage.SelectProject | src/app/projects/page.tsx:13-15 | the selection becomes the toggle of the old one |
| ProjectsPage.ProjectsPage.Expanded | src/app/projects/page.tsx:51 | one flag per project, set iff its id is the selected id |
| ProjectsPage.SidebarAlwaysEmpty | src/app/projects/page.tsx:59 | the sidebar always shows its empty view, because projects carry no URL |
| ProjectSidebar.View | src/components/ProjectSidebar.tsx:18-26 | no URL gives Empty whatever the flag; a URL with an error gives Error; otherwise Preview of the URL |
| ProjectSidebar.ViewDependsOnFlagOnlyWithUrl | src/components/ProjectSidebar.tsx:18-26 | the error flag matters iff there is a URL |
| ProjectSidebar.Sidebar.constructor | src/components/ProjectSidebar.tsx:16 | `loadError` starts false |
| ProjectSidebar.Sidebar.OnError | src/components/ProjectSidebar.tsx:26 | `onError` sets `loadError` |
| ProjectSidebar.Sidebar.OnRetry | src/components/ProjectSidebar.tsx:23 | `onRetry` clears `loadError` |
| ProjectSidebar.ErrorThenRetry | src/components/ProjectSidebar.tsx:16-26 | with a URL, an error shows Error and a retry returns to Preview |
| MobileNav.Step | src/components/navigation/MobileNav.tsx:26-44 | the toggle flips, Escape closes, other keys change nothing, and backdrop and link clicks close |
| MobileNav.Overflow | src/components/navigation/MobileNav.tsx:57-67 | the body overflow is "hidden" iff the drawer is open, and "" otherwise |
| MobileNav.StepLaws | src/components/navigation/MobileNav.tsx:26-44 | two toggles cancel, closing is idempotent, and Escape on a closed drawer does nothing |
| MobileNav.Drawer.constructor | src/components/navigation/MobileNav.tsx:18-19 | the drawer starts closed and not yet hydrated, with the body unlocked |
| MobileNav.Drawer.Hydrate | src/components/navigation/MobileNav.tsx:22-24 | the mount effect sets `mounted` and changes nothing else |
| MobileNav.Drawer.Handle | src/components/navigation/MobileNav.tsx:26-67 | each event updates the open flag by `Step`, and the overflow follows it |
| MobileNav.Drawer.Unmount | src/components/navigation/MobileNav.tsx:64-66 | the cleanup resets the body overflow to "" |
| MobileNav.Drawer.DrawerLinks | src/components/navigation/MobileNav.tsx:95-104 | the drawer's links exist iff the component is hydrated and the drawer is open, since the portal is gated by `mounted` (line 236) |
| MobileNav.OpenBeforeAndAfterHydration | src/components/navigation/MobileNav.tsx:19-28 | a drawer opened before hydration locks the body but shows no links; after hydration it shows the navigation items |
| JanuaryContributions.FlattenDays | scripts/fetch-january-contributions.ts:87-92 | the nested loops push every day of every week, in order |
| JanuaryContributions.JanuaryDaysExactly | scripts/fetch-january-contributions.ts:95 | a day is kept iff it is in the calendar and its date starts with "2026-01-" |
| JanuaryContributions.WeeksCoverDays | scripts/fetch-january-contributions.ts:104-121 | the weeks concatenate to the days, and there are none iff there are no days |
| JanuaryContributions.WeeksAreWellGrouped | scripts/fetch-january-contributions.ts:110-121 | no week is empty, no Sunday sits past a week's start, and every week after the first starts on a Sunday |
| JanuaryContributions.GroupIntoWeeks | scripts/fetch-january-contributions.ts:101-121 | the loop builds the week specification, which covers the days and is well grouped, and the running total is the count sum |
| JanuaryContributions.ActivityIndicator | scripts/fetch-january-contributions.ts:140-149 | 0, 1, 2, 3 or 4 squares for the bands 0, 1–4, 5–14, 15–24 and ≥ 25 |
| JanuaryContributions.IndicatorMonotone | scripts/fetch-january-contributions.ts:140-149 | more contributions never show fewer squares |
| JanuaryContributions.ContributionWord | scripts/fetch-january-contributions.ts:137 | singular iff the count is 1 |
| JanuaryContributions.LevelCounts | scripts/fetch-january-contributions.ts:165-176 | five levels, labelled "No activity (0)", "Low (1-9)", "Medium (10-19)", "High (20-29)" and "Very High (30+)", in that order |
| JanuaryContributions.LevelOf | scripts/fetch-january-contributions.ts:165-176 | every count has one of five levels, level 0 exactly for a zero count |
| JanuaryContributions.LevelCountsAreBandSizes | scripts/fetch-january-contributions.ts:165-176 | level k counts exactly the days whose count falls in the k-th band (0; 1-9; 10-19; 20-29; 30 and more) |
| JanuaryContributions.LevelsPartitionDays | scripts/fetch-january-contributions.ts:165-176 | the five level sizes sum to the number of January days |
| JanuaryContributions.BreakdownShowsOccupiedLevels | scripts/fetch-january-contributions.ts:178-182 | a level is listed iff it has at least one day |
| JanuaryContributions.JanuaryReport | scripts/fetch-january-contributions.ts:87-182 | the report's weeks concatenate to the January days and are well grouped; its totals and breakdown are those of the January days |

## Left out

- Transport: the HTTP transport, Next.js caching (`revalidate`, `tags`), environment reads, console logging and `process.exit`. The response is a parameter `respond`, and the token is an `Option<string>` input.
- Numbers: JavaScript's NaN, the infinities, non-integer counts and invalid dates. Counts are `nat`, and `mvpProgress` is a `real`.
- LanguageSummary.FormatNumber: the `toFixed(1)` rendering of `n / 1000` is float formatting. It is the parameter `thousands`, so only the "k" suffix is stated.
- Clock and timezone: `new Date().toISOString()`, `getDay()` and `getMonth()` depend on the host clock and timezone. They are the parameters `today`, `weekdayOf` and `monthOf`.
- Intl: `formatContributionDate`, `getDayOfWeek` and the script's `toLocaleDateString` depend on Intl and the locale.
- Script output: the script's fetch and its error exit, and the console output with its padding.
- ContributionGraph.ContributionColor: lookups of `Object.prototype` keys such as "constructor" are not modelled.
- Legend: `GITHUB_CONTRIBUTION_COLORS` in `ContributionGraph.tsx`, lines 72-78, only colours the Less/More legend squares (lines 282-293). That is presentation, so it is not modelled.
- Absent from the source: merging several years, REST-derived counts and percentage-based top languages. The code defines none of them, so none is modelled.
- Null languages: a repository whose `languages` is null makes the aggregation throw. The catch then gives the fallback. The model's repositories always carry an edge list.
- GitHubFetch.Receive: only object bodies are modelled. A JSON body that is `null` or a primitive makes `"errors" in result` throw a TypeError; the contributions fetcher then fails with that TypeError's message, and the line-count fetcher's catch gives the fallback.
- GitHubFetch.Receive: a thrown non-`Error` value and an `Error` are distinguished, but `typeof` cases beyond these two are not.
- Projects.FromJs: JavaScript functions and symbols are not among the modelled values.
- MobileNav.Drawer: the focus timer, the document listeners and the portal's DOM placement are not modelled. The hydration flag `mounted` and its gate on the drawer's content are; `alive` stands for the component's lifetime, which ends with the effects' cleanup.
- ProjectsPage.SidebarAlwaysEmpty: a project carries no `githubUrl`, so the sidebar can only show its empty view. `ProjectCard` is given no `isExpanded` or `onClick`, so the card's click wiring does not exist in the source.
- ProjectSidebar.Sidebar: `loadError` is not reset when the selected project changes, and the model keeps it across calls as the source does.
- JanuaryContributions.ActivityIndicator: its bands (0, 1–4, 5–14, 15–24, ≥ 25) differ from the level buckets (0, 1–9, 10–19, 20–29, ≥ 30). Both are modelled as written.
- SkillsGrid.ColumnDefaults: with no `columns` prop the parameter default gives 1, 2, 2. The fallbacks 1, 2, 3 apply only when a prop is given with counts missing or zero.
- Sorting on a copy: the projects list is a constant value in the model, so sorting cannot alter it. Aliasing of the source's spread copy is not modelled.
