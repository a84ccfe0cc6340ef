/** The issue classifier, the per-issue and whole-report scores, and the
    grouping of issues into scored, sorted categories. */
module SeoUtils {
  import opened Text
  import opened Js
  import opened Dict
  import opened Records
  import opened Sorting

  /** The category table, in declaration order: each category with the
      patterns that select it. */
  const ISSUE_GROUPS: Dict<seq<string>> := [
    ("Meta Description", ["Meta Description", "Meta Description Length", "Missing Meta Description", "Duplicate Meta Description"]),
    ("Canonicals", ["Canonicals", "Canonicalised", "Non-Indexable Canonical", "Missing Canonical"]),
    ("Response Codes", ["Internal Server Error", "Client Error", "404", "500", "301", "302", "Status Code"]),
    ("Headers", ["H1", "H2", "Missing H1", "Multiple H1", "Long H1", "Header"]),
    ("Security", ["HTTPS", "SSL", "Mixed Content", "Security Headers", "HTTP"]),
    ("Links", ["Broken Links", "Internal Links", "External Links", "Nofollow Links", "Link"]),
    ("Images", ["Image", "Alt Text", "Missing Alt", "Large Images", "Broken Images"]),
    ("Page Content", ["Page Titles", "Title", "Content Length", "Duplicate Content", "Word Count"]),
    ("URLs", ["URL", "URL Length", "URL Structure", "URL Path", "Repetitive Path"]),
    ("Performance", ["Load Time", "Page Size", "Compression", "Cache", "Speed"]),
    ("Mobile", ["Mobile Friendly", "Viewport", "Mobile Layout", "Touch Elements"]),
    ("Indexation", ["Index", "Noindex", "Robots", "Sitemap"])
  ]

  const OTHER := "Other"

  // ---------------------------------------------------------------------
  // Classification

  /** The two-way, case-insensitive substring test between a lowercased
      name and one pattern. */
  predicate PatternMatches(lowerName: string, pattern: string) {
    Includes(lowerName, Lower(pattern)) || Includes(Lower(pattern), lowerName)
  }

  predicate AnyPatternMatches(lowerName: string, patterns: seq<string>) {
    exists j :: 0 <= j < |patterns| && PatternMatches(lowerName, patterns[j])
  }

  /** The index of the first category one of whose patterns matches. */
  function FirstMatch(groups: Dict<seq<string>>, lowerName: string): (r: Option<nat>)
    ensures r.Some? ==> r.value < |groups| && AnyPatternMatches(lowerName, groups[r.value].1)
    ensures r.Some? ==> forall i :: 0 <= i < r.value ==> !AnyPatternMatches(lowerName, groups[i].1)
    ensures r.None? ==> forall i :: 0 <= i < |groups| ==> !AnyPatternMatches(lowerName, groups[i].1)
  {
    if groups == [] then None
    else if AnyPatternMatches(lowerName, groups[0].1) then Some(0)
    else
      match FirstMatch(groups[1..], lowerName)
      case None => None
      case Some(i) => Some(i + 1)
  }

  /** `g` names a category of the table. */
  predicate IsGroupName(g: string) {
    exists i :: 0 <= i < |ISSUE_GROUPS| && ISSUE_GROUPS[i].0 == g
  }

  /** `getIssueGroup`: "Other" for a missing or empty name; otherwise the
      first category with a matching pattern, or "Other" when there is
      none. */
  function IssueGroup(name: Option<string>): (g: string)
    ensures name.None? || name == Some("") ==> g == OTHER
    ensures g == OTHER || IsGroupName(g)
  {
    if name.None? || name.value == "" then OTHER
    else
      match FirstMatch(ISSUE_GROUPS, Lower(name.value))
      case None => OTHER
      case Some(i) => ISSUE_GROUPS[i].0
  }

  /** The category names are distinct and none of them is "Other". */
  lemma GroupNamesDistinct()
    ensures forall i, j :: 0 <= i < j < |ISSUE_GROUPS| ==> ISSUE_GROUPS[i].0 != ISSUE_GROUPS[j].0
    ensures !IsGroupName(OTHER)
  {
  }

  /** A non-empty name is put into category `i` exactly when a pattern of
      category `i` matches and no pattern of an earlier category does; it
      is "Other" exactly when no pattern of any category matches. */
  lemma IssueGroupFirstMatch(name: string, i: nat)
    requires name != "" && i < |ISSUE_GROUPS|
    ensures IssueGroup(Some(name)) == ISSUE_GROUPS[i].0 <==>
              AnyPatternMatches(Lower(name), ISSUE_GROUPS[i].1)
              && forall j :: 0 <= j < i ==> !AnyPatternMatches(Lower(name), ISSUE_GROUPS[j].1)
    ensures IssueGroup(Some(name)) == OTHER <==>
              forall j :: 0 <= j < |ISSUE_GROUPS| ==> !AnyPatternMatches(Lower(name), ISSUE_GROUPS[j].1)
  {
    GroupNamesDistinct();
    var r := FirstMatch(ISSUE_GROUPS, Lower(name));
    if r.Some? {
      assert r.value != i ==> ISSUE_GROUPS[r.value].0 != ISSUE_GROUPS[i].0;
    }
  }

  /** Names that differ only in the case of their letters land in the same
      category. */
  lemma SameGroupIgnoringCase(a: string, b: string)
    requires SameIgnoringCase(a, b)
    ensures IssueGroup(Some(a)) == IssueGroup(Some(b))
  {
    LowerIgnoresCase(a, b);
  }

  /** `patterns.some(...)` with the two-way test, as a loop. */
  method SomePatternMatches(lowerName: string, patterns: seq<string>) returns (found: bool)
    ensures found == AnyPatternMatches(lowerName, patterns)
  {
    var j := 0;
    while j < |patterns|
      invariant 0 <= j <= |patterns|
      invariant forall k :: 0 <= k < j ==> !PatternMatches(lowerName, patterns[k])
    {
      var lowerPattern := Lower(patterns[j]);
      if Includes(lowerName, lowerPattern) || Includes(lowerPattern, lowerName) {
        assert PatternMatches(lowerName, patterns[j]);
        return true;
      }
      j := j + 1;
    }
    return false;
  }

  /** `getIssueGroup` as written: a walk over the categories that returns
      at the first one with a matching pattern. */
  method GetIssueGroup(issueName: Option<string>) returns (group: string)
    ensures group == IssueGroup(issueName)
  {
    if issueName.None? || issueName.value == "" {
      return OTHER;
    }
    var lowerName := Lower(issueName.value);
    var i := 0;
    while i < |ISSUE_GROUPS|
      invariant 0 <= i <= |ISSUE_GROUPS|
      invariant forall k :: 0 <= k < i ==> !AnyPatternMatches(lowerName, ISSUE_GROUPS[k].1)
    {
      var found := SomePatternMatches(lowerName, ISSUE_GROUPS[i].1);
      if found {
        return ISSUE_GROUPS[i].0;
      }
      i := i + 1;
    }
    return OTHER;
  }

  // ---------------------------------------------------------------------
  // Scores

  const PRIORITY_WEIGHTS: Dict<real> := [("High", 100.0), ("Medium", 50.0), ("Low", 25.0)]
  const TYPE_WEIGHTS: Dict<real> := [("Issue", 2.0), ("Warning", 1.0), ("Opportunity", 0.5)]

  /** `table[key] || fallback`. */
  function Weight(table: Dict<real>, key: Value, fallback: real): (w: real)
    ensures PropertyKey(key) !in Keys(table) ==> w == fallback
    ensures Get(table, PropertyKey(key)).Some? && Get(table, PropertyKey(key)).value != 0.0 ==>
              w == Get(table, PropertyKey(key)).value
    ensures Get(table, PropertyKey(key)) == Some(0.0) ==> w == fallback
  {
    match Get(table, PropertyKey(key))
    case Some(v) => if v != 0.0 then v else fallback
    case None => fallback
  }

  lemma WeightNonNegative(table: Dict<real>, key: Value, fallback: real)
    requires fallback >= 0.0 && forall i :: 0 <= i < |table| ==> table[i].1 >= 0.0
    ensures Weight(table, key, fallback) >= 0.0
  {
    var r := Get(table, PropertyKey(key));
    if r.Some? {
      GetValueIn(table, PropertyKey(key));
    }
  }

  /** The product of the two weights and the URL factor, over 100, rounded
      to two decimals. */
  function ScoreValue(priorityScore: real, typeScore: real, urlFactor: real): real {
    var score := priorityScore * typeScore * urlFactor / 100.0;
    Round(score * 100.0) as real / 100.0
  }

  lemma ScoreValueNonNegative(priorityScore: real, typeScore: real, urlFactor: real)
    requires priorityScore >= 0.0 && typeScore >= 0.0 && urlFactor >= 0.0
    ensures ScoreValue(priorityScore, typeScore, urlFactor) >= 0.0
  {
    assert priorityScore * typeScore >= 0.0;
    assert priorityScore * typeScore * urlFactor >= 0.0;
  }

  lemma ScoreValueZero(priorityScore: real, typeScore: real, urlFactor: real)
    requires priorityScore == 0.0 || typeScore == 0.0 || urlFactor == 0.0
    ensures ScoreValue(priorityScore, typeScore, urlFactor) == 0.0
  {
    assert priorityScore * typeScore * urlFactor == 0.0;
  }

  /** `calculateSEOScore` once the URL count has been read. */
  function ScoreFromCount(log10: real -> real, priority: Value, issueType: Value, urlsAffected: Num): (r: Float)
    ensures r.NotANumber? <==> urlsAffected.NaN?
  {
    match urlsAffected
    case NaN => NotANumber
    case Int(n) =>
      Finite(ScoreValue(Weight(PRIORITY_WEIGHTS, priority, 0.0), Weight(TYPE_WEIGHTS, issueType, 0.0), log10(n as real + 1.0)))
  }

  /** `calculateSEOScore`: priority weight times type weight times
      `log10(urls + 1)`, over 100, rounded to two decimals. NaN when the URL
      field is a string without digits. */
  function SeoScore(log10: real -> real, issue: Issue): (r: Float)
    ensures r.NotANumber? <==> LooseCount(issue.urls).NaN?
  {
    ScoreFromCount(log10, issue.priority, issue.issueType, LooseCount(issue.urls))
  }

  lemma ScoreFromCountNonNegative(log10: real -> real, priority: Value, issueType: Value, n: nat)
    requires ValidLog10(log10)
    ensures ScoreFromCount(log10, priority, issueType, Int(n)).value >= 0.0
  {
    WeightNonNegative(PRIORITY_WEIGHTS, priority, 0.0);
    WeightNonNegative(TYPE_WEIGHTS, issueType, 0.0);
    var pw := Weight(PRIORITY_WEIGHTS, priority, 0.0);
    var tw := Weight(TYPE_WEIGHTS, issueType, 0.0);
    var urlFactor := log10(n as real + 1.0);
    assert urlFactor >= 0.0;
    ScoreFromCountValue(log10, priority, issueType, n);
    ScoreValueNonNegative(pw, tw, urlFactor);
  }

  /** The score of a count, as a number. */
  lemma ScoreFromCountValue(log10: real -> real, priority: Value, issueType: Value, n: nat)
    ensures ScoreFromCount(log10, priority, issueType, Int(n))
            == Finite(ScoreValue(Weight(PRIORITY_WEIGHTS, priority, 0.0), Weight(TYPE_WEIGHTS, issueType, 0.0), log10(n as real + 1.0)))
  {
  }

  /** A score is never negative. */
  lemma SeoScoreNonNegative(log10: real -> real, issue: Issue)
    requires ValidLog10(log10)
    ensures SeoScore(log10, issue).Finite? ==> SeoScore(log10, issue).value >= 0.0
  {
    var count := LooseCount(issue.urls);
    if count.Int? {
      ScoreFromCountNonNegative(log10, issue.priority, issue.issueType, count.value);
    }
  }

  /** An unknown priority or type has weight 0, and so does a URL count of
      0, so any of them makes the score 0 (unless the count is NaN). */
  lemma SeoScoreZero(log10: real -> real, issue: Issue)
    requires ValidLog10(log10) && LooseCount(issue.urls).Int?
    requires PropertyKey(issue.priority) !in Keys(PRIORITY_WEIGHTS)
             || PropertyKey(issue.issueType) !in Keys(TYPE_WEIGHTS)
             || LooseCount(issue.urls) == Int(0)
    ensures SeoScore(log10, issue) == Finite(0.0)
  {
    var count := LooseCount(issue.urls);
    var pw := Weight(PRIORITY_WEIGHTS, issue.priority, 0.0);
    var tw := Weight(TYPE_WEIGHTS, issue.issueType, 0.0);
    var l := log10(count.value as real + 1.0);
    ScoreFromCountValue(log10, issue.priority, issue.issueType, count.value);
    ScoreValueZero(pw, tw, l);
  }

  const PRIORITY_FACTORS: Dict<real> := [("High", -3.0), ("Medium", -2.0), ("Low", -1.0)]
  const TYPE_FACTORS: Dict<real> := [("Issue", 1.5), ("Warning", 1.0), ("Opportunity", 0.5)]

  /** The deduction of one issue once its URL count has been read:
      `Math.abs(priority * type * log10(urls + 1) / 2)`, with -1 for an
      unknown priority and 1 for an unknown type. */
  function DeductionFromCount(log10: real -> real, priority: Value, issueType: Value, urlCount: Num): (r: Float)
    ensures r.NotANumber? <==> urlCount.NaN?
    ensures r.Finite? ==> r.value >= 0.0
  {
    WeightedDeduction(log10, Weight(PRIORITY_FACTORS, priority, -1.0), Weight(TYPE_FACTORS, issueType, 1.0), urlCount)
  }

  /** `Math.abs(priorityFactor * typeFactor * urlFactor)` for given weights. */
  function WeightedDeduction(log10: real -> real, priorityWeight: real, typeWeight: real, urlCount: Num): Float {
    match urlCount
    case NaN => NotANumber
    case Int(n) =>
      var urlFactor := log10(n as real + 1.0) / 2.0;
      Finite(Abs(priorityWeight * typeWeight * urlFactor))
  }

  /** The amount one issue takes off the whole-report score. */
  function Deduction(log10: real -> real, issue: Issue): (r: Float)
    ensures r.NotANumber? <==> LooseCount(issue.urls).NaN?
    ensures r.Finite? ==> r.value >= 0.0
  {
    DeductionFromCount(log10, issue.priority, issue.issueType, LooseCount(issue.urls))
  }

  lemma PriorityFactorFallback(priority: Value)
    requires PropertyKey(priority) !in Keys(PRIORITY_FACTORS)
    ensures Weight(PRIORITY_FACTORS, priority, -1.0) == Weight(PRIORITY_FACTORS, Str("Low"), -1.0)
  {
    assert Get(PRIORITY_FACTORS, "Low") == Some(-1.0);
  }

  lemma TypeFactorFallback(issueType: Value)
    requires PropertyKey(issueType) !in Keys(TYPE_FACTORS)
    ensures Weight(TYPE_FACTORS, issueType, 1.0) == Weight(TYPE_FACTORS, Str("Warning"), 1.0)
  {
    assert Get(TYPE_FACTORS, "Warning") == Some(1.0);
  }

  /** An unknown priority deducts as much as "Low". */
  lemma DeductionPriorityFallback(log10: real -> real, priority: Value, issueType: Value, urlCount: Num)
    requires PropertyKey(priority) !in Keys(PRIORITY_FACTORS)
    ensures DeductionFromCount(log10, priority, issueType, urlCount)
            == DeductionFromCount(log10, Str("Low"), issueType, urlCount)
  {
    PriorityFactorFallback(priority);
  }

  /** An unknown type deducts as much as "Warning". */
  lemma DeductionTypeFallback(log10: real -> real, priority: Value, issueType: Value, urlCount: Num)
    requires PropertyKey(issueType) !in Keys(TYPE_FACTORS)
    ensures DeductionFromCount(log10, priority, issueType, urlCount)
            == DeductionFromCount(log10, priority, Str("Warning"), urlCount)
  {
    TypeFactorFallback(issueType);
  }

  function DeductionOf(log10: real -> real): Issue -> Float {
    issue => Deduction(log10, issue)
  }

  /** The sum of the deductions, accumulated in list order. */
  function TotalDeductions(log10: real -> real, issues: seq<Issue>): (r: Float)
    ensures r.NotANumber? <==> exists i :: 0 <= i < |issues| && LooseCount(issues[i].urls).NaN?
    ensures r.Finite? ==> r.value >= 0.0
  {
    FloatSumNonNegative(issues, DeductionOf(log10));
    FloatSum(issues, DeductionOf(log10))
  }

  /** The final step of `calculateTotalSEOScore`: 100 minus the deductions
      as a percentage of 4.5 per issue, rounded, and at least 0. With no
      issues it divides 0 by 0, and `Math.max(0, NaN)` is NaN. */
  function ScoreFromTotal(totalDeductions: Float, count: nat): (r: Num)
    ensures r.NaN? <==> totalDeductions.NotANumber? || count == 0
    ensures r.Int? ==> 0 <= r.value
    ensures r.Int? && totalDeductions.value >= 0.0 ==> r.value <= 100
  {
    var maxPossibleDeductions := count as real * 3.0 * 1.5;
    match totalDeductions
    case NotANumber => NaN
    case Finite(total) =>
      if maxPossibleDeductions == 0.0 then NaN
      else
        var rounded := Round(100.0 - total / maxPossibleDeductions * 100.0);
        assert total >= 0.0 ==> total / maxPossibleDeductions >= 0.0;
        Int(if rounded < 0 then 0 else rounded)
  }

  /** `calculateTotalSEOScore`. */
  function TotalSeoScore(log10: real -> real, issues: seq<Issue>): (r: Num)
    ensures r.NaN? <==> issues == [] || exists i :: 0 <= i < |issues| && LooseCount(issues[i].urls).NaN?
    ensures r.Int? ==> 0 <= r.value <= 100
  {
    ScoreFromTotal(TotalDeductions(log10, issues), |issues|)
  }

  /** The whole-report score does not depend on the order of the issues. */
  lemma TotalSeoScorePermutation(log10: real -> real, a: seq<Issue>, b: seq<Issue>)
    requires multiset(a) == multiset(b)
    ensures TotalSeoScore(log10, a) == TotalSeoScore(log10, b)
  {
    FloatSumPermutation(a, b, DeductionOf(log10));
    assert |a| == |multiset(a)| == |multiset(b)| == |b|;
  }

  /** When the deductions reach the maximum, the score bottoms out at 0. */
  lemma OverUsedScore(total: real, count: nat)
    requires count > 0 && total >= count as real * 4.5
    ensures ScoreFromTotal(Finite(total), count) == Int(0)
  {
    var maxPossible := count as real * 3.0 * 1.5;
    assert total / maxPossible >= 1.0;
  }

  lemma LooseCountHundred()
    ensures LooseCount(Str("100")) == Int(100)
  {
    assert DigitsOnly("100") == "100";
    assert DigitsValue("100", 10) == 100 by {
      assert "100"[..2] == "10" && "10"[..1] == "1" && "1"[..0] == "";
    }
  }

  lemma DeductionHighIssue(log10: real -> real)
    requires log10(101.0) >= 0.0
    ensures DeductionFromCount(log10, Str("High"), Str("Issue"), Int(100)) == Finite(2.25 * log10(101.0))
  {
    assert Weight(PRIORITY_FACTORS, Str("High"), -1.0) == -3.0;
    assert Weight(TYPE_FACTORS, Str("Issue"), 1.0) == 1.5;
  }

  lemma TotalDeductionsOneHighIssue(log10: real -> real, issue: Issue)
    requires log10(101.0) >= 0.0
    requires issue.issueType == Str("Issue") && issue.priority == Str("High") && issue.urls == Str("100")
    ensures TotalDeductions(log10, [issue]) == Finite(0.0 + 2.25 * log10(101.0))
  {
    LooseCountHundred();
    DeductionHighIssue(log10);
    FloatSumSingleton(issue, DeductionOf(log10));
  }

  /** One high-priority issue on 100 URLs already uses up the whole score,
      because `log10(101)` exceeds 2. */
  lemma TotalSeoScoreOneHighIssue(log10: real -> real, name: Option<string>)
    requires log10(101.0) >= 2.0
    ensures TotalSeoScore(log10, [Issue(name, Str("Issue"), Str("High"), Str("100"))]) == Int(0)
  {
    TotalDeductionsOneHighIssue(log10, Issue(name, Str("Issue"), Str("High"), Str("100")));
    OverUsedScore(0.0 + 2.25 * log10(101.0), 1);
  }

  /** `calculateTotalSEOScore` as written: a loop that adds up the
      deductions before the final formula. */
  method CalculateTotalSeoScore(log10: real -> real, issues: seq<Issue>) returns (score: Num)
    ensures score == TotalSeoScore(log10, issues)
  {
    var totalDeductions := Finite(0.0);
    var i := 0;
    while i < |issues|
      invariant 0 <= i <= |issues|
      invariant totalDeductions == FloatSum(issues[..i], DeductionOf(log10))
    {
      assert issues[..i + 1][..i] == issues[..i];
      totalDeductions := totalDeductions.Plus(Deduction(log10, issues[i]));
      i := i + 1;
    }
    assert issues[..i] == issues;
    score := ScoreFromTotal(totalDeductions, |issues|);
  }

  // ---------------------------------------------------------------------
  // Grouping

  /** A map from issue names to categories. The grouping below is stated
      for any classifier; `groupIssues` uses `IssueGroup`. */
  type Classifier = Option<string> -> string

  function IssueGroupFn(): Classifier {
    name => IssueGroup(name)
  }

  /** Each issue paired with its category. */
  function GroupEntries(issues: seq<Issue>, classify: Classifier): (e: seq<(string, Issue)>)
    ensures |e| == |issues|
    ensures forall i :: 0 <= i < |issues| ==> e[i] == (classify(issues[i].name), issues[i])
  {
    if issues == [] then []
    else
      var last := issues[|issues| - 1];
      GroupEntries(issues[..|issues| - 1], classify) + [(classify(last.name), last)]
  }

  /** The buckets the reduce builds: one per category, in order of first
      appearance, each with its issues in input order. */
  function Grouped(issues: seq<Issue>, classify: Classifier): Dict<seq<Issue>> {
    Buckets(GroupEntries(issues, classify))
  }

  function ScoreOf(log10: real -> real): Issue -> Float {
    issue => SeoScore(log10, issue)
  }

  /** The key by which categories are sorted: the sum of their issues'
      scores. */
  function BucketScore(log10: real -> real, grouped: Dict<seq<Issue>>): string -> Float {
    group => FloatSum(GetOr(grouped, group, []), ScoreOf(log10))
  }

  /** The categories by non-increasing summed score. */
  function GroupOrder(log10: real -> real, grouped: Dict<seq<Issue>>): (order: seq<string>)
    ensures multiset(order) == multiset(Keys(grouped))
    ensures AllFinite(Keys(grouped), BucketScore(log10, grouped)) ==>
              AllFinite(order, BucketScore(log10, grouped)) && NonIncreasing(order, BucketScore(log10, grouped))
  {
    if AllFinite(Keys(grouped), BucketScore(log10, grouped)) then
      SortDescSorted(Keys(grouped), BucketScore(log10, grouped));
      SortDesc(Keys(grouped), BucketScore(log10, grouped))
    else
      SortDesc(Keys(grouped), BucketScore(log10, grouped))
  }

  /** For each category in `order`, its bucket sorted by non-increasing
      score. */
  function SortedBuckets(log10: real -> real, order: seq<string>, grouped: Dict<seq<Issue>>): (e: seq<(string, seq<Issue>)>)
    ensures |e| == |order|
    ensures forall i :: 0 <= i < |order| ==> e[i] == (order[i], SortDesc(GetOr(grouped, order[i], []), ScoreOf(log10)))
  {
    if order == [] then []
    else
      var key := order[|order| - 1];
      SortedBuckets(log10, order[..|order| - 1], grouped) + [(key, SortDesc(GetOr(grouped, key, []), ScoreOf(log10)))]
  }

  /** `groupIssues`. */
  function GroupIssuesResult(log10: real -> real, issues: seq<Issue>, classify: Classifier): Dict<seq<Issue>> {
    var grouped := Grouped(issues, classify);
    FromEntries(SortedBuckets(log10, GroupOrder(log10, grouped), grouped))
  }

  /** The reduce of `groupIssues`: a loop that pushes each issue into its
      category's bucket. */
  method BucketIssues(issues: seq<Issue>) returns (grouped: Dict<seq<Issue>>)
    ensures grouped == Grouped(issues, IssueGroupFn())
  {
    grouped := [];
    var i := 0;
    while i < |issues|
      invariant 0 <= i <= |issues|
      invariant grouped == Grouped(issues[..i], IssueGroupFn())
    {
      var group := GetIssueGroup(issues[i].name);
      GroupedStep(issues, IssueGroupFn(), i);
      grouped := Append(grouped, group, issues[i]);
      i := i + 1;
    }
    assert issues[..i] == issues;
  }

  /** One more issue appends it to its category's bucket. */
  lemma GroupedStep(issues: seq<Issue>, classify: Classifier, i: nat)
    requires i < |issues|
    ensures Grouped(issues[..i + 1], classify) == Append(Grouped(issues[..i], classify), classify(issues[i].name), issues[i])
  {
    var prefix := issues[..i + 1];
    assert prefix[..i] == issues[..i];
    var entries := GroupEntries(prefix, classify);
    assert entries[..i] == GroupEntries(issues[..i], classify);
  }

  /** The `forEach` of `groupIssues`: stores each bucket, sorted, under its
      category in the given order. */
  method StoreSorted(log10: real -> real, order: seq<string>, grouped: Dict<seq<Issue>>) returns (sortedGroups: Dict<seq<Issue>>)
    ensures sortedGroups == FromEntries(SortedBuckets(log10, order, grouped))
  {
    sortedGroups := [];
    var j := 0;
    while j < |order|
      invariant 0 <= j <= |order|
      invariant sortedGroups == FromEntries(SortedBuckets(log10, order[..j], grouped))
    {
      var key := order[j];
      assert order[..j + 1][..j] == order[..j];
      sortedGroups := Put(sortedGroups, key, SortDesc(GetOr(grouped, key, []), ScoreOf(log10)));
      j := j + 1;
    }
    assert order[..j] == order;
  }

  /** `groupIssues` as written: bucket, sort the categories, store the
      sorted buckets. */
  method GroupIssues(log10: real -> real, issues: seq<Issue>) returns (sortedGroups: Dict<seq<Issue>>)
    ensures sortedGroups == GroupIssuesResult(log10, issues, IssueGroupFn())
  {
    var grouped := BucketIssues(issues);
    var order := SortDesc(Keys(grouped), BucketScore(log10, grouped));
    sortedGroups := StoreSorted(log10, order, grouped);
  }

  /** The issues whose category is `group`, in input order. */
  function InGroup(issues: seq<Issue>, classify: Classifier, group: string): (r: seq<Issue>)
    ensures forall x :: x in r <==> x in issues && classify(x.name) == group
  {
    if issues == [] then []
    else
      var last := issues[|issues| - 1];
      var init := issues[..|issues| - 1];
      assert issues == init + [last];
      InGroup(init, classify, group) + (if classify(last.name) == group then [last] else [])
  }

  lemma {:induction false} ValuesForGroupEntries(issues: seq<Issue>, classify: Classifier, group: string)
    ensures ValuesFor(GroupEntries(issues, classify), group) == InGroup(issues, classify, group)
  {
    if issues != [] {
      var init := issues[..|issues| - 1];
      ValuesForGroupEntries(init, classify, group);
      var e := GroupEntries(issues, classify);
      assert e[..|e| - 1] == GroupEntries(init, classify);
    }
  }

  lemma {:induction false} GroupEntriesKeys(issues: seq<Issue>, classify: Classifier, group: string)
    ensures group in EntryKeys(GroupEntries(issues, classify)) <==> exists i :: 0 <= i < |issues| && classify(issues[i].name) == group
  {
    var e := GroupEntries(issues, classify);
    EntryKeysAll(e);
  }

  /** The category order lists each bucket key once. */
  lemma OrderDistinct(log10: real -> real, issues: seq<Issue>, classify: Classifier)
    ensures Distinct(GroupOrder(log10, Grouped(issues, classify)))
    ensures multiset(GroupOrder(log10, Grouped(issues, classify))) == multiset(Keys(Grouped(issues, classify)))
  {
    var grouped := Grouped(issues, classify);
    BucketsKeys(GroupEntries(issues, classify));
    DistinctMultiset(Keys(grouped), GroupOrder(log10, grouped));
  }

  /** With a distinct order, the result's keys are that order and each key
      holds its sorted bucket. */
  lemma StoredInOrder(log10: real -> real, order: seq<string>, grouped: Dict<seq<Issue>>, k: string)
    requires Distinct(order)
    ensures Keys(FromEntries(SortedBuckets(log10, order, grouped))) == order
    ensures k in order ==>
              Get(FromEntries(SortedBuckets(log10, order, grouped)), k)
              == Some(SortDesc(GetOr(grouped, k, []), ScoreOf(log10)))
  {
    var e := SortedBuckets(log10, order, grouped);
    EntryKeysAll(e);
    assert EntryKeys(e) == order;
    FromEntriesKeys(e);
    FirstOccurrencesDistinct(order);
    if k in order {
      var i :| 0 <= i < |order| && order[i] == k;
      FromEntriesGet(e, k);
      LastForDistinct(e, i);
    }
  }

  /** The result has one key per category that some issue falls into, and
      no other; each key once. */
  lemma GroupIssuesKeys(log10: real -> real, issues: seq<Issue>, classify: Classifier, group: string)
    ensures Distinct(Keys(GroupIssuesResult(log10, issues, classify)))
    ensures group in Keys(GroupIssuesResult(log10, issues, classify)) <==>
              exists i :: 0 <= i < |issues| && classify(issues[i].name) == group
  {
    var grouped := Grouped(issues, classify);
    var order := GroupOrder(log10, grouped);
    OrderDistinct(log10, issues, classify);
    StoredInOrder(log10, order, grouped, group);
    assert group in order <==> group in multiset(Keys(grouped));
    BucketsKeys(GroupEntries(issues, classify));
    GroupEntriesKeys(issues, classify, group);
  }

  /** The bucket of a category holds exactly that category's issues. */
  lemma GroupedBucket(issues: seq<Issue>, classify: Classifier, group: string)
    ensures GetOr(Grouped(issues, classify), group, []) == InGroup(issues, classify, group)
  {
    BucketsGet(GroupEntries(issues, classify), group);
    ValuesForGroupEntries(issues, classify, group);
    if group !in EntryKeys(GroupEntries(issues, classify)) {
      ValuesForAbsent(GroupEntries(issues, classify), group);
    }
  }

  /** A category's stored bucket is its issues, sorted by score. */
  lemma GroupIssuesStored(log10: real -> real, issues: seq<Issue>, classify: Classifier, group: string)
    requires group in Keys(GroupIssuesResult(log10, issues, classify))
    ensures GetOr(GroupIssuesResult(log10, issues, classify), group, [])
            == SortDesc(InGroup(issues, classify, group), ScoreOf(log10))
  {
    var grouped := Grouped(issues, classify);
    var order := GroupOrder(log10, grouped);
    OrderDistinct(log10, issues, classify);
    StoredInOrder(log10, order, grouped, group);
    GroupedBucket(issues, classify, group);
  }

  /** Each bucket holds exactly the issues of its category, as a
      permutation of their input order, and is sorted by non-increasing
      score when no score is NaN. */
  lemma GroupIssuesBucket(log10: real -> real, issues: seq<Issue>, classify: Classifier, group: string)
    requires group in Keys(GroupIssuesResult(log10, issues, classify))
    ensures var bucket := GetOr(GroupIssuesResult(log10, issues, classify), group, []);
            && multiset(bucket) == multiset(InGroup(issues, classify, group))
            && (forall x :: x in bucket <==> x in issues && classify(x.name) == group)
            && (AllFinite(bucket, ScoreOf(log10)) ==> NonIncreasing(bucket, ScoreOf(log10)))
  {
    GroupIssuesStored(log10, issues, classify, group);
    var unsorted := InGroup(issues, classify, group);
    var sorted := SortDesc(unsorted, ScoreOf(log10));
    assert forall x :: x in sorted <==> x in multiset(unsorted);
    if AllFinite(sorted, ScoreOf(log10)) {
      AllFiniteMultiset(sorted, unsorted, ScoreOf(log10));
      SortDescSorted(unsorted, ScoreOf(log10));
    }
  }

  /** The categories come in order of non-increasing summed score when no
      sum is NaN. */
  lemma GroupIssuesOrder(log10: real -> real, issues: seq<Issue>, classify: Classifier)
    ensures var grouped := Grouped(issues, classify);
            var keys := Keys(GroupIssuesResult(log10, issues, classify));
            AllFinite(keys, BucketScore(log10, grouped)) ==> NonIncreasing(keys, BucketScore(log10, grouped))
  {
    var grouped := Grouped(issues, classify);
    var order := GroupOrder(log10, grouped);
    OrderDistinct(log10, issues, classify);
    StoredInOrder(log10, order, grouped, "");
    if order != [] {
      if AllFinite(order, BucketScore(log10, grouped)) {
        AllFiniteMultiset(order, Keys(grouped), BucketScore(log10, grouped));
        SortDescSorted(Keys(grouped), BucketScore(log10, grouped));
      }
    }
  }
}
