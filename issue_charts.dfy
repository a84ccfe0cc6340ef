/** The two chart aggregations of the issue charts: the URL count per
    category and the number of issues per priority. */
module IssueCharts {
  import opened Js
  import opened Dict
  import opened Records
  import opened SeoUtils

  /** `acc[group]`: an issue's category. */
  function CategoryKey(issue: Issue): string {
    IssueGroup(issue.name)
  }

  /** `parseInt(issue['URLs'].replace(/[^0-9]/g, '')) || 0`, where it can be
      read. */
  function ChartUrlAmount(issue: Issue): int {
    match StrictCount(issue.urls)
    case Some(n) => n
    case None => 0
  }

  /** Every URL field is a string; any other value has no `replace` and
      the reduce throws. */
  predicate UrlsAreStrings(issues: seq<Issue>) {
    forall i :: 0 <= i < |issues| ==> issues[i].urls.Str?
  }

  /** Each issue's category with its URL count, in order. */
  function CategoryEntries(issues: seq<Issue>): seq<(string, int)> {
    Amounts(issues, CategoryKey, ChartUrlAmount)
  }

  /** The `categoryData` reduce, as a loop: `None` when an issue's URL field
      is not a string (the reduce throws there, and nothing of it is kept),
      otherwise the per-category sums. The entries of the result, in order,
      are the chart's `{ name, value }` points. */
  method CategoryTotals(issues: seq<Issue>) returns (r: Option<Dict<int>>)
    ensures r.Some? <==> UrlsAreStrings(issues)
    ensures r.Some? ==> r.value == Tally(CategoryEntries(issues))
  {
    if !UrlsAreStrings(issues) {
      return None;
    }
    var acc: Dict<int> := [];
    var i := 0;
    while i < |issues|
      invariant 0 <= i <= |issues|
      invariant acc == Tally(CategoryEntries(issues[..i]))
    {
      var group := GetIssueGroup(issues[i].name);
      var urlCount := StrictCount(issues[i].urls).value;
      CategoryStep(issues, i);
      acc := Bump(acc, group, urlCount);
      i := i + 1;
    }
    assert issues[..i] == issues;
    return Some(acc);
  }

  /** One more issue adds its digit-stripped count to its category. */
  lemma CategoryStep(issues: seq<Issue>, i: nat)
    requires i < |issues| && issues[i].urls.Str?
    ensures Tally(CategoryEntries(issues[..i + 1])) ==
              Bump(Tally(CategoryEntries(issues[..i])), IssueGroup(issues[i].name), StrippedCount(issues[i].urls.s))
  {
    AmountsStep(issues, i, CategoryKey, ChartUrlAmount);
    TallySnoc(CategoryEntries(issues[..i]), (CategoryKey(issues[i]), ChartUrlAmount(issues[i])));
  }

  /** A category's value is the sum of the digit-stripped counts of the
      issues in it, and the values add up to the sum over all issues. */
  lemma CategorySums(issues: seq<Issue>, group: string)
    ensures Get(Tally(CategoryEntries(issues)), group) ==
              if group in EntryKeys(CategoryEntries(issues)) then Some(SumFor(CategoryEntries(issues), group)) else None
    ensures SumValues(Tally(CategoryEntries(issues))) == Total(CategoryEntries(issues))
  {
    TallyGet(CategoryEntries(issues), group);
    TallyTotal(CategoryEntries(issues));
  }

  /** A category appears exactly when some issue is classified into it, so
      every category shown is a `getIssueGroup` result. */
  lemma CategoryKeysClassified(issues: seq<Issue>, group: string)
    ensures group in Keys(Tally(CategoryEntries(issues))) <==>
              exists i :: 0 <= i < |issues| && IssueGroup(issues[i].name) == group
    ensures group in Keys(Tally(CategoryEntries(issues))) ==> group == OTHER || IsGroupName(group)
  {
    AmountsTallyKeys(issues, CategoryKey, ChartUrlAmount, group);
  }

  /** The chart total is never negative. */
  lemma CategoryTotalNonNegative(issues: seq<Issue>)
    ensures SumValues(Tally(CategoryEntries(issues))) >= 0
  {
    AmountsTotalNonNegative(issues, CategoryKey, ChartUrlAmount);
    TallyTotal(CategoryEntries(issues));
  }

  /** `acc[priority]`: the priority as an object key. */
  function PriorityKey(issue: Issue): string {
    PropertyKey(issue.priority)
  }

  function One(issue: Issue): int {
    1
  }

  /** Each issue's priority with the amount 1. */
  function PriorityEntries(issues: seq<Issue>): seq<(string, int)> {
    Amounts(issues, PriorityKey, One)
  }

  /** The `priorityData` reduce, as a loop. */
  method PriorityCounts(issues: seq<Issue>) returns (acc: Dict<int>)
    ensures acc == Tally(PriorityEntries(issues))
  {
    acc := [];
    var i := 0;
    while i < |issues|
      invariant 0 <= i <= |issues|
      invariant acc == Tally(PriorityEntries(issues[..i]))
    {
      var priority := PropertyKey(issues[i].priority);
      AmountsStep(issues, i, PriorityKey, One);
      TallySnoc(PriorityEntries(issues[..i]), (priority, 1));
      acc := Bump(acc, priority, 1);
      i := i + 1;
    }
    assert issues[..i] == issues;
  }

  /** Each priority's value is the number of issues with that priority, a
      priority appears exactly when some issue has it, and the values add up
      to the number of issues. */
  lemma PriorityCountsSum(issues: seq<Issue>, priority: string)
    ensures var counts := Tally(PriorityEntries(issues));
            && (priority in Keys(counts) <==> exists i :: 0 <= i < |issues| && PropertyKey(issues[i].priority) == priority)
            && (priority in Keys(counts) ==> Get(counts, priority) == Some(multiset(EntryKeys(PriorityEntries(issues)))[priority]))
            && SumValues(counts) == |issues|
  {
    CountTally(issues, PriorityKey, One, priority);
  }
}
