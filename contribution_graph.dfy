/**
 * The logic of src/components/ContributionGraph/ContributionGraph.tsx: the
 * light-to-dark remapping of GitHub's calendar colours, the row of month
 * labels above the weeks, and the "n day(s)" streak text.
 *
 * `new Date(date).getMonth()` depends on the host timezone, so the month of a
 * date string is a parameter `monthOf`.
 */
module ContributionGraph {
  import opened Outcomes
  import opened ContributionTypes
  import Decimal

  const EmptyColor: string := "#161b22"

  /** `colorMap`: GitHub's five light-theme levels and their dark-theme counterparts. */
  const ColorMap: map<string, string> := map[
    "#ebedf0" := "#161b22",
    "#9be9a8" := "#0e4429",
    "#40c463" := "#006d32",
    "#30a14e" := "#26a641",
    "#216e39" := "#39d353"
  ]

  /** `getContributionColor`: empty means no data; a light colour is remapped; anything else passes through. */
  function ContributionColor(color: string): (r: string)
    ensures color == "" ==> r == EmptyColor
    ensures color != "" && color in ColorMap ==> r == ColorMap[color]
    ensures color != "" && color !in ColorMap ==> r == color
  {
    if color == "" then EmptyColor
    else if color in ColorMap then ColorMap[color]
    else color
  }

  /** No dark colour is itself a light key, so remapping a second time changes nothing. */
  lemma ContributionColorIdempotent(color: string)
    ensures ContributionColor(ContributionColor(color)) == ContributionColor(color)
  {
    var r := ContributionColor(color);
    if color != "" && color in ColorMap {
      assert r in ColorMap.Values;
      forall k | k in ColorMap ensures ColorMap[k] !in ColorMap {
      }
      assert r != "";
    }
  }

  /** Every result is either a dark colour or a colour that was not a light key. */
  lemma ContributionColorIsDarkOrUnmapped(color: string)
    ensures var r := ContributionColor(color);
      r == EmptyColor || r in ColorMap.Values || (r == color && r !in ColorMap)
  {
  }

  type Month = m: int | 0 <= m < 12

  const MonthNames: seq<string> := ["Jan", "Feb", "Mar", "Apr", "May", "Jun", "Jul", "Aug", "Sep", "Oct", "Nov", "Dec"]

  /** The month of the first day of the last week of `weeks` that has a day: `lastMonth` after them. */
  function LastMonth(weeks: seq<Week>, monthOf: string -> Month): (r: Option<Month>)
    ensures r.None? <==> forall j :: 0 <= j < |weeks| ==> |weeks[j].contributionDays| == 0
  {
    if |weeks| == 0 then None
    else
      var last := weeks[|weeks| - 1];
      if |last.contributionDays| == 0 then LastMonth(weeks[..|weeks| - 1], monthOf)
      else Some(monthOf(last.contributionDays[0].date))
  }

  /** The label of week `i`: its month's name when that month differs from `lastMonth`. */
  function Label(weeks: seq<Week>, i: nat, monthOf: string -> Month): (r: Option<string>)
    requires i < |weeks|
    ensures |weeks[i].contributionDays| == 0 ==> r.None?
    ensures r.Some? ==> r.value in MonthNames
  {
    var days := weeks[i].contributionDays;
    if |days| == 0 then None
    else
      var month := monthOf(days[0].date);
      if LastMonth(weeks[..i], monthOf) == Some(month) then None else Some(MonthNames[month])
  }

  lemma LastMonthStep(weeks: seq<Week>, i: nat, monthOf: string -> Month)
    requires i < |weeks|
    ensures LastMonth(weeks[..i + 1], monthOf) ==
      if |weeks[i].contributionDays| == 0 then LastMonth(weeks[..i], monthOf)
      else Some(monthOf(weeks[i].contributionDays[0].date))
  {
    assert weeks[..i + 1][..i] == weeks[..i];
  }

  /**
   * `getMonthLabelRow`: one slot per week, filled in by a single pass that
   * remembers the last month it labelled.
   */
  method GetMonthLabelRow(weeks: seq<Week>, monthOf: string -> Month) returns (row: array<Option<string>>)
    ensures fresh(row)
    ensures row.Length == |weeks|
    ensures forall i :: 0 <= i < |weeks| ==> row[i] == Label(weeks, i, monthOf)
  {
    row := new Option<string>[|weeks|](_ => None);
    var lastMonth: Option<Month> := None;
    for weekIndex := 0 to |weeks|
      invariant lastMonth == LastMonth(weeks[..weekIndex], monthOf)
      invariant forall i :: 0 <= i < weekIndex ==> row[i] == Label(weeks, i, monthOf)
      invariant forall i :: weekIndex <= i < |weeks| ==> row[i].None?
    {
      LastMonthStep(weeks, weekIndex, monthOf);
      var days := weeks[weekIndex].contributionDays;
      if |days| > 0 {
        var month := monthOf(days[0].date);
        if lastMonth != Some(month) {
          row[weekIndex] := Some(MonthNames[month]);
          lastMonth := Some(month);
        }
      }
    }
  }

  lemma {:induction false} LastMonthAllEmpty(weeks: seq<Week>, monthOf: string -> Month)
    requires forall j :: 0 <= j < |weeks| ==> |weeks[j].contributionDays| == 0
    ensures LastMonth(weeks, monthOf).None?
  {
    if |weeks| > 0 {
      LastMonthAllEmpty(weeks[..|weeks| - 1], monthOf);
    }
  }

  /** The first week that has any day is always labelled. */
  lemma FirstNonEmptyWeekLabelled(weeks: seq<Week>, i: nat, monthOf: string -> Month)
    requires i < |weeks| && |weeks[i].contributionDays| > 0
    requires forall j :: 0 <= j < i ==> |weeks[j].contributionDays| == 0
    ensures Label(weeks, i, monthOf) == Some(MonthNames[monthOf(weeks[i].contributionDays[0].date)])
  {
    LastMonthAllEmpty(weeks[..i], monthOf);
  }

  lemma {:induction false} LastMonthSkipsEmpty(weeks: seq<Week>, j: nat, i: nat, monthOf: string -> Month)
    requires j < i <= |weeks| && |weeks[j].contributionDays| > 0
    requires forall k :: j < k < i ==> |weeks[k].contributionDays| == 0
    ensures LastMonth(weeks[..i], monthOf) == Some(monthOf(weeks[j].contributionDays[0].date))
    decreases i
  {
    LastMonthStep(weeks, i - 1, monthOf);
    if i - 1 > j {
      LastMonthSkipsEmpty(weeks, j, i - 1, monthOf);
    }
  }

  /**
   * A later week with days is labelled exactly when its month differs from the
   * month of the previous week that has days, whatever empty weeks lie between.
   */
  lemma LabelMarksMonthChange(weeks: seq<Week>, j: nat, i: nat, monthOf: string -> Month)
    requires j < i < |weeks| && |weeks[j].contributionDays| > 0 && |weeks[i].contributionDays| > 0
    requires forall k :: j < k < i ==> |weeks[k].contributionDays| == 0
    ensures Label(weeks, i, monthOf).Some? <==>
      monthOf(weeks[i].contributionDays[0].date) != monthOf(weeks[j].contributionDays[0].date)
  {
    LastMonthSkipsEmpty(weeks, j, i, monthOf);
  }

  /** `${streak} day${streak !== 1 ? "s" : ""}` */
  function StreakText(streak: nat): (r: string)
    ensures r == "1 day" <==> streak == 1
    ensures streak != 1 ==>
      exists digits :: r == digits + " days" && Decimal.IsDecimal(digits) && Decimal.ToNat(digits) == streak
  {
    var digits := Decimal.FromNat(streak);
    Decimal.RoundTrip(streak);
    if streak != 1 then
      assert |digits + " days"| != |"1 day"|;
      digits + " days"
    else
      assert digits == "1";
      digits + " day"
  }
}
