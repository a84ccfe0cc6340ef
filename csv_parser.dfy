/** `parseCSVData`: the client-side reading of the issue listing, with a
    summary computed from the issues and an empty result when anything
    fails. */
module CsvParser {
  import opened Js
  import opened Dict
  import opened Records
  import opened IssueCharts

  /** The summary the client computes; `totalAffectedUrls` is a number or
      NaN. */
  datatype Metadata = Metadata(totalIssues: int, issuesByType: Dict<int>, totalAffectedUrls: Num)

  /** What the parser hands to the page: the issues and a summary. */
  datatype Parsed<M> = Parsed(issues: seq<Issue>, metadata: M)

  /** The summary of the result given when reading fails. */
  const EMPTY_METADATA := Metadata(0, [], Int(0))

  /** `acc[issue['Issue Type']]`: the type as an object key. */
  function IssueTypeKey(issue: Issue): string {
    PropertyKey(issue.issueType)
  }

  /** Each issue's type with the amount 1. */
  function TypeEntries(data: seq<Issue>): seq<(string, int)> {
    Amounts(data, IssueTypeKey, One)
  }

  /** The `issuesByType` reduce, as a loop that counts the issues of each
      type. */
  method IssuesByType(data: seq<Issue>) returns (acc: Dict<int>)
    ensures acc == Tally(TypeEntries(data))
  {
    acc := [];
    var i := 0;
    while i < |data|
      invariant 0 <= i <= |data|
      invariant acc == Tally(TypeEntries(data[..i]))
    {
      var issueType := PropertyKey(data[i].issueType);
      AmountsStep(data, i, IssueTypeKey, One);
      TallySnoc(TypeEntries(data[..i]), (issueType, 1));
      acc := Bump(acc, issueType, 1);
      i := i + 1;
    }
    assert data[..i] == data;
  }

  /** Each type's count is the number of issues of that type, a type appears
      exactly when some issue has it, and the counts add up to the number of
      issues. */
  lemma IssuesByTypeCounts(data: seq<Issue>, t: string)
    ensures var counts := Tally(TypeEntries(data));
            && (t in Keys(counts) <==> exists i :: 0 <= i < |data| && PropertyKey(data[i].issueType) == t)
            && (t in Keys(counts) ==> Get(counts, t) == Some(multiset(EntryKeys(TypeEntries(data)))[t]))
            && SumValues(counts) == |data|
  {
    CountTally(data, IssueTypeKey, One, t);
  }

  function UrlCountOf(issue: Issue): Option<nat> {
    StrictCount(issue.urls)
  }

  /** The `totalAffectedUrls` reduce: the digit-stripped counts added up,
      or `None` when a URL field is not a string and `replace` throws. */
  function StrictUrlTotal(data: seq<Issue>): (r: Option<nat>)
    ensures r.Some? <==> UrlsAreStrings(data)
  {
    OptionSum(data, UrlCountOf)
  }

  /** The summary's URL total is the total of the category chart: both add
      the same digit-stripped counts. */
  lemma StrictUrlTotalIsChartTotal(data: seq<Issue>)
    requires UrlsAreStrings(data)
    ensures StrictUrlTotal(data) == Some(Total(CategoryEntries(data)))
  {
    OptionSumTotal(data, UrlCountOf, CategoryKey, ChartUrlAmount);
  }

  /** `parseCSVData`, after the fetch: `data` is the listing's `data` field,
      `None` when the body cannot be read or `data` is not an array. */
  method ParseCsvData(data: Option<seq<Issue>>) returns (result: Parsed<Metadata>)
    ensures data.None? || !UrlsAreStrings(data.value) ==> result == Parsed([], EMPTY_METADATA)
    ensures data.Some? && UrlsAreStrings(data.value) ==>
              && result.issues == data.value
              && result.metadata.totalIssues == |data.value|
              && result.metadata.issuesByType == Tally(TypeEntries(data.value))
              && result.metadata.totalAffectedUrls == Int(StrictUrlTotal(data.value).value)
    ensures result.metadata.totalAffectedUrls.Int? && result.metadata.totalAffectedUrls.value >= 0
    ensures SumValues(result.metadata.issuesByType) == result.metadata.totalIssues
  {
    if data.None? {
      return Parsed([], EMPTY_METADATA);
    }
    var issues := data.value;
    var byType := IssuesByType(issues);
    var total := StrictUrlTotal(issues);
    if total.None? {
      return Parsed([], EMPTY_METADATA);
    }
    IssuesByTypeCounts(issues, "");
    return Parsed(issues, Metadata(|issues|, byType, Int(total.value)));
  }
}
