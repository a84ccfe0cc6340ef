/** The report differ behind the comparison endpoint: the two most recent
    reports of a client, reconciled issue by issue, with a metrics block and
    a tally of trends. */
module Compare {
  import opened Js
  import opened Dict
  import opened Records

  datatype Trend = Improved | Worse | Unchanged | New

  /** A percentage as `toFixed(1)` prints it: the value of
      `numerator / denominator * 100`, whose digits are left abstract (a zero
      denominator stands for JavaScript's division by zero, which prints
      `Infinity` or `NaN`), or the literal `'100'`. */
  datatype Percent = Fixed(numerator: Num, denominator: int) | Hundred

  const MS_PER_DAY := 1000 * 60 * 60 * 24

  // ---------------------------------------------------------------------
  // Dates

  datatype Dates = Dates(current: int, previous: int, daysBetween: int)

  /** `Math.floor((current - previous) / 86400000)` on millisecond
      timestamps: the number of whole days from `previous` to `current`. */
  function DaysBetween(current: int, previous: int): (d: int)
    ensures d * MS_PER_DAY <= current - previous < (d + 1) * MS_PER_DAY
    ensures current >= previous ==> d >= 0
  {
    (current - previous) / MS_PER_DAY
  }

  // ---------------------------------------------------------------------
  // Metrics

  datatype Metric = Metric(current: int, previous: int, change: int, percentageChange: Percent, trend: Trend)

  datatype Metrics = Metrics(totalIssues: Metric, totalUrls: Metric, issue: Metric, warning: Metric, opportunity: Metric)

  predicate LowerIsBetter(m: Metric) {
    m.change == m.current - m.previous
    && (m.trend == Improved <==> m.current < m.previous)
    && (m.trend == Improved || m.trend == Worse)
  }

  /** One metrics block; lower is better, whatever is being counted. */
  function MetricOf(current: int, previous: int, denominator: int): (m: Metric)
    ensures m.current == current && m.previous == previous && LowerIsBetter(m)
    ensures m.percentageChange == Fixed(Int(m.change), denominator)
  {
    Metric(current, previous, current - previous, Fixed(Int(current - previous), denominator),
           if current < previous then Improved else Worse)
  }

  /** `urlsByIssueType[t] || 0`. */
  function ByType(m: StoredMetadata, t: string): (n: int)
    ensures t !in Keys(m.urlsByIssueType) ==> n == 0
    ensures t in Keys(m.urlsByIssueType) ==> Get(m.urlsByIssueType, t) == Some(n)
  {
    GetOr(m.urlsByIssueType, t, 0)
  }

  /** `urlsByIssueType[t] || 1`, the divisor of a per-type percentage. */
  function ByTypeDivisor(m: StoredMetadata, t: string): (d: int)
    ensures d != 0
    ensures ByType(m, t) != 0 ==> d == ByType(m, t)
    ensures ByType(m, t) == 0 ==> d == 1
  {
    var v := ByType(m, t);
    if v != 0 then v else 1
  }

  function TypeMetric(newer: StoredMetadata, older: StoredMetadata, t: string): Metric {
    MetricOf(ByType(newer, t), ByType(older, t), ByTypeDivisor(older, t))
  }

  /** The metrics block. The totals are divided by the previous total as it
      is, so a previous total of 0 divides by zero. */
  function MetricsOf(newer: StoredMetadata, older: StoredMetadata): (ms: Metrics)
    ensures ms.totalIssues.current == newer.totalIssues && ms.totalIssues.previous == older.totalIssues
    ensures ms.totalUrls.current == newer.totalUrls && ms.totalUrls.previous == older.totalUrls
    ensures ms.issue.current == ByType(newer, "Issue") && ms.issue.previous == ByType(older, "Issue")
    ensures ms.warning.current == ByType(newer, "Warning") && ms.warning.previous == ByType(older, "Warning")
    ensures ms.opportunity.current == ByType(newer, "Opportunity") && ms.opportunity.previous == ByType(older, "Opportunity")
    ensures LowerIsBetter(ms.totalIssues) && LowerIsBetter(ms.totalUrls)
            && LowerIsBetter(ms.issue) && LowerIsBetter(ms.warning) && LowerIsBetter(ms.opportunity)
  {
    Metrics(
      MetricOf(newer.totalIssues, older.totalIssues, older.totalIssues),
      MetricOf(newer.totalUrls, older.totalUrls, older.totalUrls),
      TypeMetric(newer, older, "Issue"),
      TypeMetric(newer, older, "Warning"),
      TypeMetric(newer, older, "Opportunity"))
  }

  /** The divisors of the percentages: a missing per-type bucket reads as 0
      and a zero previous bucket is divided by 1, while the totals are
      divided by the previous total unguarded. */
  lemma MetricsTrend(newer: StoredMetadata, older: StoredMetadata, t: string)
    requires t == "Issue" || t == "Warning" || t == "Opportunity"
    ensures var ms := MetricsOf(newer, older);
            ms.totalIssues.percentageChange == Fixed(Int(newer.totalIssues - older.totalIssues), older.totalIssues)
            && ms.totalUrls.percentageChange == Fixed(Int(newer.totalUrls - older.totalUrls), older.totalUrls)
    ensures var m := TypeMetric(newer, older, t);
            && (t !in Keys(newer.urlsByIssueType) ==> m.current == 0)
            && (t !in Keys(older.urlsByIssueType) ==> m.previous == 0 && m.percentageChange.denominator == 1)
            && (m.previous == 0 ==> m.percentageChange.denominator == 1)
            && (m.previous != 0 ==> m.percentageChange.denominator == m.previous)
  {
  }

  // ---------------------------------------------------------------------
  // Issue changes

  /** A URL count with the type and priority it was recorded with. */
  datatype Snapshot = Snapshot(urls: Num, issueType: Value, priority: Value)

  datatype IssueChange = IssueChange(
    issueName: Value, current: Snapshot, previous: Option<Snapshot>,
    change: Num, percentageChange: Percent, trend: Trend, indicator: string)

  /** `issues.find(pi => pi.issueName === name)`. */
  function FindByName(issues: seq<StoredIssue>, name: Value): (r: Option<StoredIssue>)
    ensures r.None? <==> forall k :: 0 <= k < |issues| ==> issues[k].issueName != name
    ensures r.Some? ==> exists j :: 0 <= j < |issues| && issues[j] == r.value && r.value.issueName == name
                          && forall k :: 0 <= k < j ==> issues[k].issueName != name
  {
    if issues == [] then None
    else if issues[0].issueName == name then
      assert issues[0] == issues[0];
      Some(issues[0])
    else
      var r := FindByName(issues[1..], name);
      if r.Some? then
        var j :| 0 <= j < |issues[1..]| && issues[1..][j] == r.value && r.value.issueName == name
                 && forall k :: 0 <= k < j ==> issues[1..][k].issueName != name;
        assert issues[j + 1] == r.value;
        assert forall k :: 0 <= k < j + 1 ==> issues[k].issueName != name by {
          forall k | 0 <= k < j + 1 ensures issues[k].issueName != name {
            if k > 0 { assert issues[k] == issues[1..][k - 1]; }
          }
        }
        r
      else
        assert forall k :: 0 < k < |issues| ==> issues[k] == issues[1..][k - 1];
        r
  }

  /** For opportunities more URLs is better, for everything else fewer; a
      NaN change is neither. */
  predicate IsPositiveChange(issueType: Value, change: Num)
    ensures IsPositiveChange(issueType, change) ==> change.Int? && change.value != 0
    ensures issueType == Str("Opportunity") && change.Int? && change.value > 0 ==> IsPositiveChange(issueType, change)
    ensures issueType != Str("Opportunity") && change.Int? && change.value < 0 ==> IsPositiveChange(issueType, change)
  {
    if issueType == Str("Opportunity") then change.Int? && change.value > 0
    else change.Int? && change.value < 0
  }

  const NEW_MARK := "\U{1F195}"
  const UNCHANGED_MARK := "\U{26AA}"
  const IMPROVED_MARK := "\U{1F7E2}"
  const WORSE_MARK := "\U{1F534}"

  /** The glyph that goes with a trend. */
  function Mark(t: Trend): string {
    match t
    case New => NEW_MARK
    case Unchanged => UNCHANGED_MARK
    case Improved => IMPROVED_MARK
    case Worse => WORSE_MARK
  }

  /** The change record of one current issue against the older report. */
  function ChangeFor(currentIssue: StoredIssue, older: seq<StoredIssue>): (c: IssueChange)
    ensures c.issueName == currentIssue.issueName
    ensures c.current == Snapshot(ParseIntValue(currentIssue.urls), currentIssue.issueType, currentIssue.issuePriority)
    ensures c.previous.None? <==> FindByName(older, currentIssue.issueName).None?
    ensures c.previous.None? ==> c.trend == New && c.change == c.current.urls && c.percentageChange == Hundred
    ensures c.previous.Some? ==> c.change == c.current.urls.Minus(c.previous.value.urls) && c.trend != New
    ensures c.indicator == Mark(c.trend)
  {
    var previousIssue := FindByName(older, currentIssue.issueName);
    var currentUrls := ParseIntValue(currentIssue.urls);
    var previousUrls := if previousIssue.Some? then ParseIntValue(previousIssue.value.urls) else Int(0);
    var change := currentUrls.Minus(previousUrls);
    var percentageChange := if previousUrls.IsTruthy() then Fixed(change, previousUrls.value) else Hundred;
    var isPositiveChange := IsPositiveChange(currentIssue.issueType, change);
    IssueChange(
      currentIssue.issueName,
      Snapshot(currentUrls, currentIssue.issueType, currentIssue.issuePriority),
      if previousIssue.Some? then Some(Snapshot(previousUrls, previousIssue.value.issueType, previousIssue.value.issuePriority)) else None,
      change,
      percentageChange,
      if previousIssue.None? then New else if change == Int(0) then Unchanged else if isPositiveChange then Improved else Worse,
      if previousIssue.None? then NEW_MARK else if change == Int(0) then UNCHANGED_MARK else if isPositiveChange then IMPROVED_MARK else WORSE_MARK)
  }

  /** `newerReport.all_issues.map(...)`: one change record per current
      issue, in current order, under its name. */
  function IssueChanges(newer: seq<StoredIssue>, older: seq<StoredIssue>): (r: seq<IssueChange>)
    ensures |r| == |newer|
    ensures forall i :: 0 <= i < |newer| ==> r[i].issueName == newer[i].issueName
    ensures forall i :: 0 <= i < |newer| ==> r[i] == ChangeFor(newer[i], older)
  {
    seq(|newer|, i requires 0 <= i < |newer| => ChangeFor(newer[i], older))
  }

  /** A current issue that the older report does not name is new: no
      previous snapshot, its whole count as the change, and '100'. */
  lemma ChangeForNew(currentIssue: StoredIssue, older: seq<StoredIssue>)
    requires forall k :: 0 <= k < |older| ==> older[k].issueName != currentIssue.issueName
    ensures var c := ChangeFor(currentIssue, older);
            && c.trend == New && c.previous.None?
            && c.change == ParseIntValue(currentIssue.urls)
            && c.percentageChange == Hundred
  {
  }

  /** A current issue matched with the first older issue of the same name:
      the change is current minus previous count, the trend is "unchanged"
      exactly when the change is 0, a previous count of 0 (or NaN) prints
      '100', and otherwise the polarity comes from the current type. NaN
      counts as "worse". */
  lemma ChangeForMatched(currentIssue: StoredIssue, older: seq<StoredIssue>, j: nat)
    requires j < |older| && older[j].issueName == currentIssue.issueName
    requires forall k :: 0 <= k < j ==> older[k].issueName != currentIssue.issueName
    ensures var c := ChangeFor(currentIssue, older);
            var previousUrls := ParseIntValue(older[j].urls);
            && c.previous == Some(Snapshot(previousUrls, older[j].issueType, older[j].issuePriority))
            && c.change == ParseIntValue(currentIssue.urls).Minus(previousUrls)
            && c.trend != New
            && (c.trend == Unchanged <==> c.change == Int(0))
            && (!previousUrls.IsTruthy() ==> c.percentageChange == Hundred)
            && (previousUrls.IsTruthy() ==> c.percentageChange == Fixed(c.change, previousUrls.value))
            && (c.change != Int(0) && currentIssue.issueType == Str("Opportunity") ==>
                  (c.trend == Improved <==> c.change.Int? && c.change.value > 0))
            && (c.change != Int(0) && currentIssue.issueType != Str("Opportunity") ==>
                  (c.trend == Improved <==> c.change.Int? && c.change.value < 0))
            && (c.change.NaN? ==> c.trend == Worse)
  {
    var r := FindByName(older, currentIssue.issueName);
    var j' :| 0 <= j' < |older| && older[j'] == r.value && r.value.issueName == currentIssue.issueName
              && forall k :: 0 <= k < j' ==> older[k].issueName != currentIssue.issueName;
    assert j' == j;
  }

  /** A change record is "new" exactly when the older report has no issue
      of that name, and its glyph always matches its trend. */
  lemma ChangeForTrend(currentIssue: StoredIssue, older: seq<StoredIssue>)
    ensures var c := ChangeFor(currentIssue, older);
            && (c.trend == New <==> forall k :: 0 <= k < |older| ==> older[k].issueName != currentIssue.issueName)
            && c.indicator == Mark(c.trend)
  {
  }

  // ---------------------------------------------------------------------
  // Summary

  /** The counters of the summary; `same` and `added` are the code's
      `unchanged` and `new` counters. */
  datatype Summary = Summary(improved: nat, worse: nat, same: nat, added: nat, resolved: nat)

  /** The number of change records with trend `t`. */
  function CountTrend(changes: seq<IssueChange>, t: Trend): (n: nat)
    ensures n <= |changes|
  {
    if changes == [] then 0
    else CountTrend(changes[..|changes| - 1], t) + (if changes[|changes| - 1].trend == t then 1 else 0)
  }

  function TrendSummary(changes: seq<IssueChange>, resolved: nat): Summary {
    Summary(CountTrend(changes, Improved), CountTrend(changes, Worse), CountTrend(changes, Unchanged),
            CountTrend(changes, New), resolved)
  }

  /** Every record has exactly one of the four trends, so the counters add
      up to the number of records. */
  lemma {:induction false} TrendCountsTotal(changes: seq<IssueChange>)
    ensures CountTrend(changes, Improved) + CountTrend(changes, Worse) + CountTrend(changes, Unchanged)
            + CountTrend(changes, New) == |changes|
  {
    if changes != [] {
      TrendCountsTotal(changes[..|changes| - 1]);
    }
  }

  /** `comparison.summary[issue.trend]++` for each record, as a loop. */
  method SummarizeTrends(changes: seq<IssueChange>) returns (summary: Summary)
    ensures summary == TrendSummary(changes, 0)
  {
    summary := Summary(0, 0, 0, 0, 0);
    var i := 0;
    while i < |changes|
      invariant 0 <= i <= |changes|
      invariant summary == TrendSummary(changes[..i], 0)
    {
      assert changes[..i + 1][..i] == changes[..i];
      match changes[i].trend {
        case Improved => summary := summary.(improved := summary.improved + 1);
        case Worse => summary := summary.(worse := summary.worse + 1);
        case Unchanged => summary := summary.(same := summary.same + 1);
        case New => summary := summary.(added := summary.added + 1);
      }
      i := i + 1;
    }
    assert changes[..i] == changes;
  }

  /** The older issues whose name no current issue has. */
  function Resolved(older: seq<StoredIssue>, newer: seq<StoredIssue>): (r: seq<StoredIssue>)
    ensures |r| <= |older|
    ensures forall x :: x in r <==> x in older && forall k :: 0 <= k < |newer| ==> newer[k].issueName != x.issueName
    ensures forall x :: multiset(r)[x] == if FindByName(newer, x.issueName).None? then multiset(older)[x] else 0
  {
    if older == [] then []
    else
      var init := older[..|older| - 1];
      var last := older[|older| - 1];
      assert older == init + [last];
      Resolved(init, newer) + (if FindByName(newer, last.issueName).None? then [last] else [])
  }

  /** A resolved name has no change record. */
  lemma ResolvedNotInChanges(older: seq<StoredIssue>, newer: seq<StoredIssue>, x: StoredIssue, i: nat)
    requires x in Resolved(older, newer) && i < |newer|
    ensures IssueChanges(newer, older)[i].issueName != x.issueName
  {
  }

  // ---------------------------------------------------------------------
  // The comparison

  datatype Comparison = Comparison(dates: Dates, metrics: Metrics, issueChanges: seq<IssueChange>, summary: Summary)

  /** The comparison of the newer report against the older one; `None`
      when a report has no metadata block, where reading its fields
      throws. */
  function CompareReports(newer: Report<StoredIssue>, older: Report<StoredIssue>): (r: Option<Comparison>)
    ensures r.Some? <==> newer.metadata.Some? && older.metadata.Some?
  {
    if newer.metadata.None? || older.metadata.None? then None
    else
      var changes := IssueChanges(newer.allIssues, older.allIssues);
      Some(Comparison(
        Dates(newer.scanDate, older.scanDate, DaysBetween(newer.scanDate, older.scanDate)),
        MetricsOf(newer.metadata.value, older.metadata.value),
        changes,
        TrendSummary(changes, |Resolved(older.allIssues, newer.allIssues)|)))
  }

  /** The summary of a comparison counts its records by trend, the counts
      add up to the number of records, and `resolved` counts the older
      issues whose name is gone. */
  lemma CompareSummary(newer: Report<StoredIssue>, older: Report<StoredIssue>)
    requires newer.metadata.Some? && older.metadata.Some?
    ensures var c := CompareReports(newer, older).value;
            && |c.issueChanges| == |newer.allIssues|
            && c.summary.improved + c.summary.worse + c.summary.same + c.summary.added == |c.issueChanges|
            && c.summary.resolved == |Resolved(older.allIssues, newer.allIssues)|
            && (forall t :: CountTrend(c.issueChanges, t) ==
                  match t
                  case Improved => c.summary.improved
                  case Worse => c.summary.worse
                  case Unchanged => c.summary.same
                  case New => c.summary.added)
  {
    TrendCountsTotal(IssueChanges(newer.allIssues, older.allIssues));
  }

  // ---------------------------------------------------------------------
  // Comparing a report with itself

  /** No two issues share a name. */
  predicate DistinctNames(issues: seq<StoredIssue>) {
    forall j, k :: 0 <= j < k < |issues| ==> issues[j].issueName != issues[k].issueName
  }

  /** Against itself, every issue finds a namesake, so no record is "new".
      With distinct names each issue finds itself, and a count that reads as
      a number gives "unchanged" with a change of 0. */
  lemma SelfChange(issues: seq<StoredIssue>, i: nat)
    requires i < |issues|
    ensures IssueChanges(issues, issues)[i].trend != New
    ensures DistinctNames(issues) && ParseIntValue(issues[i].urls).Int? ==>
              IssueChanges(issues, issues)[i].trend == Unchanged && IssueChanges(issues, issues)[i].change == Int(0)
  {
    assert issues[i].issueName == issues[i].issueName;
    if DistinctNames(issues) {
      ChangeForMatched(issues[i], issues, i);
    }
  }

  /** Nothing is resolved when a list is compared with itself. */
  lemma ResolvedSelf(issues: seq<StoredIssue>)
    ensures Resolved(issues, issues) == []
  {
  }

  lemma {:induction false} CountTrendAll(changes: seq<IssueChange>, t: Trend)
    requires forall i :: 0 <= i < |changes| ==> changes[i].trend == t
    ensures CountTrend(changes, t) == |changes|
  {
    if changes != [] {
      CountTrendAll(changes[..|changes| - 1], t);
    }
  }

  lemma {:induction false} CountTrendNone(changes: seq<IssueChange>, t: Trend)
    requires forall i :: 0 <= i < |changes| ==> changes[i].trend != t
    ensures CountTrend(changes, t) == 0
  {
    if changes != [] {
      CountTrendNone(changes[..|changes| - 1], t);
    }
  }

  /** A report compared with itself has nothing new and nothing resolved;
      with distinct names and counts that read as numbers, every record is
      "unchanged" with a change of 0, and so is the whole tally. */
  lemma SelfComparison(report: Report<StoredIssue>)
    requires report.metadata.Some?
    ensures var c := CompareReports(report, report).value;
            && c.summary.added == 0 && c.summary.resolved == 0
    ensures var c := CompareReports(report, report).value;
            DistinctNames(report.allIssues) && (forall i :: 0 <= i < |report.allIssues| ==> ParseIntValue(report.allIssues[i].urls).Int?) ==>
              && (forall i :: 0 <= i < |c.issueChanges| ==> c.issueChanges[i].trend == Unchanged && c.issueChanges[i].change == Int(0))
              && c.summary.same == |report.allIssues|
              && c.summary.improved == 0 && c.summary.worse == 0
  {
    var issues := report.allIssues;
    var changes := IssueChanges(issues, issues);
    forall i | 0 <= i < |changes| ensures changes[i].trend != New {
      SelfChange(issues, i);
    }
    CountTrendNone(changes, New);
    ResolvedSelf(issues);
    if DistinctNames(issues) && (forall i :: 0 <= i < |issues| ==> ParseIntValue(issues[i].urls).Int?) {
      forall i | 0 <= i < |changes| ensures changes[i].trend == Unchanged && changes[i].change == Int(0) {
        SelfChange(issues, i);
      }
      CountTrendAll(changes, Unchanged);
      CountTrendNone(changes, Improved);
      CountTrendNone(changes, Worse);
    }
  }

  /** With a repeated name, the second issue is compared with the first
      namesake, not with itself: a list holding "A" on 5 URLs and then "A"
      on 7 URLs, compared with itself, marks the second record "worse". */
  lemma SelfComparisonDuplicateName()
    ensures var a5 := StoredIssue(Str("A"), Str("Issue"), Str("High"), Number(5), Undefined, Undefined, Undefined);
            var a7 := StoredIssue(Str("A"), Str("Issue"), Str("High"), Number(7), Undefined, Undefined, Undefined);
            IssueChanges([a5, a7], [a5, a7])[1].trend == Worse
  {
    var a5 := StoredIssue(Str("A"), Str("Issue"), Str("High"), Number(5), Undefined, Undefined, Undefined);
    var a7 := StoredIssue(Str("A"), Str("Issue"), Str("High"), Number(7), Undefined, Undefined, Undefined);
    ChangeForMatched(a7, [a5, a7], 0);
  }

  datatype CompareBody =
    | ErrorBody(error: string)
    | NotEnoughReports(error: string, reportsFound: nat)
    | ComparisonBody(success: bool, data: Comparison)

  /** The comparison endpoint. `authenticated` is what the session check
      found and `reports` what the query returned: the client's reports by
      descending scan date, at most two of them. */
  function CompareHandler(httpMethod: string, authenticated: bool, reports: seq<Report<StoredIssue>>): (r: Response<CompareBody>)
    ensures httpMethod != "GET" ==> r == Response(405, ErrorBody("Method not allowed"))
    ensures httpMethod == "GET" && !authenticated ==> r == Response(401, ErrorBody("Not authenticated"))
    ensures httpMethod == "GET" && authenticated && |reports| < 2 ==>
              r == Response(404, NotEnoughReports("Not enough reports for comparison", |reports|))
    ensures r.status == 200 <==> httpMethod == "GET" && authenticated && |reports| >= 2
                                 && CompareReports(reports[0], reports[1]).Some?
    ensures r.status == 200 ==> r.body == ComparisonBody(true, CompareReports(reports[0], reports[1]).value)
    ensures httpMethod == "GET" && authenticated && |reports| >= 2 && CompareReports(reports[0], reports[1]).None? ==>
              r == Response(500, ErrorBody("Failed to compare reports"))
  {
    if httpMethod != "GET" then Response(405, ErrorBody("Method not allowed"))
    else if !authenticated then Response(401, ErrorBody("Not authenticated"))
    else if |reports| < 2 then Response(404, NotEnoughReports("Not enough reports for comparison", |reports|))
    else
      match CompareReports(reports[0], reports[1])
      case None => Response(500, ErrorBody("Failed to compare reports"))
      case Some(comparison) => Response(200, ComparisonBody(true, comparison))
  }

  /** With the reports in descending scan-date order, a successful
      comparison never reports a negative number of days. */
  lemma CompareDaysNonNegative(httpMethod: string, authenticated: bool, reports: seq<Report<StoredIssue>>)
    requires |reports| >= 2 && reports[0].scanDate >= reports[1].scanDate
    ensures var r := CompareHandler(httpMethod, authenticated, reports);
            r.status == 200 ==> r.body.data.dates.daysBetween >= 0
  {
  }
}
