# SEO issue reports: a verified model

This project models the data logic of a small Next.js application. The application stores SEO crawl reports. Each report has a list of issues: a name, a type, a priority and a URL count. It also has a metadata block with totals per issue type. The application classifies the issues into categories and scores them. It compares the latest two reports of a client, joins each issue with an explanatory template, and gates its pages behind a session token.

The model covers:
- the classifier, the scores and the grouping of `utils/seoUtils.js`;
- the report comparison of `pages/api/mongo-issues/compare.js`;
- the cleaning and metadata aggregation of the upload endpoint;
- the route gate in `middleware.js`;
- the two chart aggregations of `components/IssueCharts.js`;
- the metadata fallbacks of `utils/csvParser.js` and `utils/dataParser.js`;
- the template join of `pages/api/mongo-issues.js` and `pages/api/issues.js`;
- the validation and CSV splitting of `components/UploadForm.js`.

Modules:
- `Js` (js.dfy): JSON field values, `undefined`/`null`, truthiness, `||`, and property keys. It also has numbers that may be NaN, for both integer and real arithmetic, and `parseInt`.
- `Text` (text.dfy): ASCII lower-casing, `trim`, `includes`, `endsWith` and `split`. It also has the digit stripping `replace(/[^0-9]/g, '')`, and number-to-string.
- `Dict` (dict.dfy): JavaScript objects and `Map`s used as accumulators, modelled as association lists in insertion order. Assigning a key replaces it in place or appends it. On top of that, the reduce patterns: per-key sums, per-key buckets and key-by.
- `Records` (records.dfy): the record types and the three ways a URL count is read.
- `Sorting` (sorting.dfy): `Array.prototype.sort` with a descending numeric comparator, as a stable insertion sort.
- One module per core file: `SeoUtils`, `Compare`, `Upload`, `Middleware`, `IssueCharts`, `CsvParser`, `DataParser`, `MongoIssues`, `IssuesApi` and `UploadForm`.

The model keeps the imperative shape of the code:
- A `reduce` or `forEach` that mutates an accumulator becomes a method with a loop. The loop is proved equal to a function on the inputs, and the lemmas are stated about that function. Examples: `SeoUtils.GetIssueGroup`, `SeoUtils.CalculateTotalSeoScore`, `SeoUtils.GroupIssues`, `Compare.SummarizeTrends`, `Upload.UrlsByIssueType`, `IssueCharts.CategoryTotals`, `CsvParser.IssuesByType` and `IssuesApi.TemplateIndex`.
- Pure `map`/`find`/`filter` expressions become functions.

A handler is a function (or a method), with these as parameters:
- the request method;
- whether the session check succeeded;
- the database results it would read.

A thrown exception caught by the handler becomes `None` in the model, and the handler's catch branch then gives its error response.

### Where the code departs from the expected behaviour

The model follows the code:
- `calculateTotalSEOScore` on an empty list is NaN. The code divides 0 by 0 (utils/seoUtils.js:176, 193), and `Math.max(0, NaN)` is NaN. It is not 100 (`SeoUtils.TotalSeoScore`).
- In the comparison, an issue is matched with the first older issue of the same name. With a repeated name, a report compared with itself can mark the second issue "worse" (`Compare.SelfComparisonDuplicateName`). With distinct names and readable counts, every record is "unchanged" (`Compare.SelfComparison`).
- In the comparison, a URL field that `parseInt` cannot read gives a NaN change. A NaN change is neither `=== 0` nor `> 0` nor `< 0`, so the issue is classified "worse" even when compared with itself (`Compare.ChangeForMatched`).
- The percentage changes of `totalIssues` and `totalUrls` divide by the previous value with no guard. A previous value of 0 is kept as the denominator (`Compare.MetricsTrend`).
- `calculateSEOScore`, `calculateTotalSEOScore` and `parseData`'s fallback put `|| 0` only on the non-string branch of the URL parse. So a string without digits gives NaN, not 0 (`Records.LooseCount`).
- As a result, the CSV parser and the data parser disagree on such a report (`DataParser.DigitFreeUrlsDisagree`).

## Model

| member | source | states |
|---|---|---|
| Js.ParseDigitsValue | utils/csvParser.js:19 | After stripping non-digits, `parseInt` is NaN exactly when no digit is left; otherwise it is the number the digits spell |
| Js.ParseIntStopsAtComma | pages/api/mongo-issues/compare.js:98-99 | `parseInt("1,204")` is 1: only the leading digits are read |
| Js.ParseIntWithoutDigits | pages/api/mongo-issues/compare.js:98-99 | `parseInt("n/a")` is NaN |
| Js.ParseIntSignAndSpace | pages/api/mongo-issues/compare.js:98-99 | `parseInt(" -12px")` is -12: leading space skipped, sign kept, trailing text ignored |
| Js.ParseIntHexPrefix | pages/api/mongo-issues/compare.js:98-99 | `parseInt("0x1A")` is 26: with no radix argument a `0x` prefix means base 16 |
| Js.ParseInt | pages/api/mongo-issues/compare.js:98-99 | Blank input gives NaN, and a negative result needs a leading '-' after the white space |
| Js.ParseIntValue | pages/api/mongo-issues/compare.js:98-99 | `undefined` and `null` give NaN, a number is itself, and a string is parsed |
| Js.FloatSum | utils/seoUtils.js:178-191 | The running sum is NaN exactly when some term is NaN |
| Js.FloatSumPermutation | utils/seoUtils.js:178-191 | The sum of the deductions does not depend on the order of the terms |
| Js.MapOption | pages/api/mongo-issues.js:43-46 | A map whose callback may throw gives one result per element, in order, or fails exactly when some call throws |
| Text.LowerSuffix | components/UploadForm.js:20 | Lower-casing commutes with taking a suffix |
| Text.LowerIgnoresCase | utils/seoUtils.js:120 | Two names equal up to letter case lower-case to the same string |
| Text.Lower | utils/seoUtils.js:120 | Lower-casing keeps the length and folds each character on its own |
| Text.Includes | utils/seoUtils.js:124-125 | A string that includes another is at least as long; the empty string is included in every string |
| Text.IncludesAt | utils/seoUtils.js:124-125 | `includes` holds exactly when the second string occurs in the first at some index |
| Text.EndsWith | components/UploadForm.js:20 | `endsWith` holds exactly when the suffix fits and matches the last characters one by one |
| Text.Trim | pages/api/upload.js:15 | `trim` never lengthens a string, and what is left neither starts nor ends with white space |
| Text.TrimFacts | pages/api/upload.js:15 | `trim` keeps a contiguous middle piece and removes only white space before and after it |
| Text.Split | components/UploadForm.js:34-35 | `split` gives one more part than there are separators, no part holds the separator, and joining the parts back with it gives the input |
| Text.SplitAtFirst | components/UploadForm.js:34 | Splitting at the first separator gives the part before it, then the split of the rest |
| Text.DigitsOnly | pages/api/upload.js:55 | The digit stripping leaves only decimal digits, never lengthens the string, and is empty exactly when the string has no digit |
| Text.DigitsOnlyAppend | pages/api/upload.js:55 | Stripping distributes over concatenation, so the digits are kept in their order |
| Dict.Put | pages/api/issues.js:31 | Assigning a key replaces its value in place when present, otherwise appends it; all other entries are kept |
| Dict.TallyGet | pages/api/upload.js:57-62 | A per-key accumulator holds, for each key that occurs, the sum of that key's amounts, and has no other key |
| Dict.TallyTotal | pages/api/upload.js:57-62 | The values of a per-key accumulator sum to the total of all amounts |
| Dict.CountTally | components/IssueCharts.js:34-38 | Counting by key gives each key's number of occurrences, and the counts sum to the number of elements |
| Dict.OptionSum | utils/csvParser.js:17-21 | A sum whose terms may throw succeeds exactly when every term does |
| Dict.OptionSumTotal | utils/csvParser.js:17-21 | When it succeeds, that sum is the plain total of the amounts |
| Dict.NumSum | utils/dataParser.js:33-38 | A sum of possibly-NaN terms is NaN exactly when some term is NaN |
| Dict.NumSumTotal | utils/dataParser.js:33-38 | With no NaN term, that sum is the plain total |
| Dict.BucketsGet | utils/seoUtils.js:134-141 | Pushing each element into its key's bucket leaves, under each key, that key's elements in input order |
| Dict.BucketsKeepValues | utils/seoUtils.js:134-141 | Bucketing keeps the multiset of elements |
| Dict.FromEntriesGet | pages/api/mongo-issues.js:42-47 | A map built from key/value pairs holds, for each key, the last value given for it |
| Dict.LastForDistinct | utils/seoUtils.js:151-155 | With distinct keys, each key's value is the one it was given |
| Records.StrippedCountParses | components/IssueCharts.js:28 | Stripping non-digits, parsing and falling back to 0 gives the number the digits of the string spell, or 0 when it has none |
| Records.StrippedCount | components/IssueCharts.js:28 | A string without digits counts 0, and a plain numeral counts the number it spells |
| Records.StrictCount | components/IssueCharts.js:28 | That count succeeds exactly when the field is a string; any other value has no `replace` and throws |
| Records.LooseCount | utils/seoUtils.js:107-109 | The count with the 0 fallback on the non-string branch only: NaN exactly for a string without digits, never negative |
| Records.LooseCountParses | utils/seoUtils.js:107-109 | That count is `parseInt` of the stripped string for a string, and `parseInt` of the value with a 0 fallback otherwise |
| Sorting.Insert | utils/seoUtils.js:151-155 | Inserting keeps the multiset of elements |
| Sorting.SortDesc | utils/seoUtils.js:145-155 | The descending sort is a permutation of its input |
| Sorting.SortDescSorted | utils/seoUtils.js:145-155 | With finite keys the result is ordered by non-increasing key |
| Sorting.InsertSorted | utils/seoUtils.js:151-155 | Inserting into a non-increasing sequence keeps it non-increasing |
| Sorting.AllFiniteMultiset | utils/seoUtils.js:145-155 | Finiteness of all keys is preserved by any permutation |
| SeoUtils.FirstMatch | utils/seoUtils.js:122-130 | The index found is the first group with a matching pattern; none is found only when no group matches |
| SeoUtils.IssueGroup | utils/seoUtils.js:117-131 | A missing or empty name is "Other"; every result is a group name of the table or "Other" |
| SeoUtils.GroupNamesDistinct | utils/seoUtils.js:16-100 | The group names of the table are distinct, and "Other" is not one of them |
| SeoUtils.IssueGroupFirstMatch | utils/seoUtils.js:118-130 | A non-empty name is in group i exactly when a pattern of group i matches it both ways round and no earlier group matches; it is "Other" exactly when no group matches |
| SeoUtils.SameGroupIgnoringCase | utils/seoUtils.js:120-125 | Names that differ only in letter case fall into the same group |
| SeoUtils.SomePatternMatches | utils/seoUtils.js:122-129 | The inner search loop finds a match exactly when some pattern contains the name or is contained in it |
| SeoUtils.GetIssueGroup | utils/seoUtils.js:117-131 | The nested loop with early return gives exactly the classification `IssueGroup` defines |
| SeoUtils.Weight | utils/seoUtils.js:103-104 | A stored non-zero weight is returned; a missing key or a stored 0 gives the fallback |
| SeoUtils.WeightNonNegative | utils/seoUtils.js:103-104 | With non-negative table values and fallback, the weight is non-negative |
| SeoUtils.ScoreValueNonNegative | utils/seoUtils.js:112-114 | The rounded product of non-negative factors is non-negative |
| SeoUtils.ScoreValueZero | utils/seoUtils.js:112-114 | A zero factor gives a score of exactly 0 after rounding |
| SeoUtils.ScoreFromCount | utils/seoUtils.js:102-115 | The score is NaN exactly when the URL count is NaN |
| SeoUtils.SeoScore | utils/seoUtils.js:102-115 | `calculateSEOScore` is NaN exactly when the URL field is a string without digits |
| SeoUtils.ScoreFromCountNonNegative | utils/seoUtils.js:103-114 | A score from a readable count is non-negative |
| SeoUtils.SeoScoreNonNegative | utils/seoUtils.js:102-115 | A score that is not NaN is never negative |
| SeoUtils.SeoScoreZero | utils/seoUtils.js:103-112 | An unknown priority, an unknown type or a URL count of 0 gives a score of 0 |
| SeoUtils.DeductionFromCount | utils/seoUtils.js:179-189 | A deduction is NaN exactly when its count is; otherwise it is non-negative, because of `Math.abs` |
| SeoUtils.Deduction | utils/seoUtils.js:178-191 | One issue's deduction is NaN exactly when its URL field is a digit-free string, and otherwise non-negative |
| SeoUtils.PriorityFactorFallback | utils/seoUtils.js:179 | An unknown priority takes the factor -1, the same as "Low" |
| SeoUtils.TypeFactorFallback | utils/seoUtils.js:180 | An unknown type takes the factor 1, the same as "Warning" |
| SeoUtils.DeductionPriorityFallback | utils/seoUtils.js:179-189 | An unknown priority deducts as much as "Low" |
| SeoUtils.DeductionTypeFallback | utils/seoUtils.js:180-189 | An unknown type deducts as much as "Warning" |
| SeoUtils.TotalDeductions | utils/seoUtils.js:176-191 | The summed deductions are NaN exactly when some issue's count is NaN, and otherwise non-negative |
| SeoUtils.ScoreFromTotal | utils/seoUtils.js:176-193 | The final score is NaN exactly when the deductions are NaN or there are no issues; otherwise it lies in [0, 100] |
| SeoUtils.TotalSeoScore | utils/seoUtils.js:161-196 | `calculateTotalSEOScore` is NaN exactly for an empty list or a NaN count; otherwise it lies in [0, 100] |
| SeoUtils.TotalSeoScorePermutation | utils/seoUtils.js:161-196 | The whole-report score does not depend on the order of the issues |
| SeoUtils.OverUsedScore | utils/seoUtils.js:176-193 | Deductions at or above the maximum give a score of 0 |
| SeoUtils.LooseCountHundred | utils/seoUtils.js:183-185 | The URL field "100" reads as 100 |
| SeoUtils.DeductionHighIssue | utils/seoUtils.js:179-189 | A high-priority "Issue" on 100 URLs deducts 2.25 · log10(101) |
| SeoUtils.TotalDeductionsOneHighIssue | utils/seoUtils.js:178-191 | The deductions of that one issue sum to the same amount |
| SeoUtils.TotalSeoScoreOneHighIssue | utils/seoUtils.js:161-196 | One high-priority issue on 100 URLs already brings the score to 0 |
| SeoUtils.CalculateTotalSeoScore | utils/seoUtils.js:161-196 | The `forEach` that accumulates deductions computes exactly `TotalSeoScore` |
| SeoUtils.GroupEntries | utils/seoUtils.js:134-141 | Each issue is paired with its category, one pair per issue, in order |
| SeoUtils.SortedBuckets | utils/seoUtils.js:151-155 | Each category in the order gets its bucket sorted by score |
| SeoUtils.GroupOrder | utils/seoUtils.js:145-150 | The category order is a permutation of the categories, by non-increasing summed score when no sum is NaN |
| SeoUtils.BucketIssues | utils/seoUtils.js:134-141 | The reduce that pushes each issue into its category's bucket computes exactly the bucketing function |
| SeoUtils.StoreSorted | utils/seoUtils.js:151-155 | The `forEach` that stores the sorted buckets computes exactly `SortedBuckets` in the given order |
| SeoUtils.GroupIssues | utils/seoUtils.js:133-158 | `groupIssues` as written computes exactly `GroupIssuesResult` (with a NaN score, the order is the model's stable choice) |
| SeoUtils.InGroup | utils/seoUtils.js:134-141 | The issues of a category are exactly the input issues that the classifier puts there |
| SeoUtils.ValuesForGroupEntries | utils/seoUtils.js:134-141 | A bucket's values are that category's issues, in input order |
| SeoUtils.GroupEntriesKeys | utils/seoUtils.js:134-141 | A category occurs exactly when some issue is classified into it |
| SeoUtils.OrderDistinct | utils/seoUtils.js:145-150 | The sorted category order lists each category once, and the same categories as the buckets |
| SeoUtils.StoredInOrder | utils/seoUtils.js:151-155 | The result's keys are the sorted order, and each holds its sorted bucket |
| SeoUtils.GroupIssuesKeys | utils/seoUtils.js:133-158 | The result has one key per category some issue falls into, and no other; each key once |
| SeoUtils.GroupedBucket | utils/seoUtils.js:134-141 | The bucket of a category holds exactly that category's issues |
| SeoUtils.GroupIssuesStored | utils/seoUtils.js:133-158 | A category's stored list is its issues sorted by score (with a NaN score, in the model's stable order) |
| SeoUtils.GroupIssuesBucket | utils/seoUtils.js:133-158 | Each stored list is a permutation of its category's issues, and is non-increasing by score when no score is NaN |
| SeoUtils.GroupIssuesOrder | utils/seoUtils.js:145-150 | The categories come in order of non-increasing summed score when no sum is NaN |
| Compare.DaysBetween | pages/api/mongo-issues/compare.js:38 | The day count is the floor of the millisecond difference over one day, and non-negative when the newer date is not earlier |
| Compare.MetricOf | pages/api/mongo-issues/compare.js:59-89 | One block keeps its two values, its change is current minus previous, and it is "improved" exactly when current < previous and "worse" otherwise |
| Compare.ByType | pages/api/mongo-issues/compare.js:71-73 | A missing per-type bucket reads 0; a present one reads its stored value |
| Compare.ByTypeDivisor | pages/api/mongo-issues/compare.js:74 | The per-type divisor is never 0: the previous bucket, or 1 when that is 0 |
| Compare.MetricsOf | pages/api/mongo-issues/compare.js:54-91 | The five blocks carry the totals and the three per-type buckets, and each is "improved" exactly when its value went down, whatever the type |
| Compare.MetricsTrend | pages/api/mongo-issues/compare.js:54-91 | A missing bucket reads 0 and a 0 previous bucket is divided by 1; the totals keep their raw denominator |
| Compare.FindByName | pages/api/mongo-issues/compare.js:94-96 | The search finds an older issue with the same name, and fails exactly when there is none |
| Compare.IsPositiveChange | pages/api/mongo-issues/compare.js:104-106 | A positive change is never 0 or NaN; for an opportunity a rise is positive, for anything else a fall |
| Compare.ChangeFor | pages/api/mongo-issues/compare.js:93-128 | The record keeps the name and current snapshot; it has no previous snapshot exactly when no older issue shares the name, and is then "new" with the whole count and '100'; otherwise the change is current minus previous; the glyph matches the trend |
| Compare.IssueChanges | pages/api/mongo-issues/compare.js:93-129 | One change record per current issue, in order, carrying its name, each the record `ChangeFor` gives |
| Compare.ChangeForNew | pages/api/mongo-issues/compare.js:94-124 | An issue with no older namesake is "new", with no previous snapshot, change equal to its current count, and percentage '100' |
| Compare.ChangeForMatched | pages/api/mongo-issues/compare.js:98-127 | For a matched issue: change is current minus previous; "unchanged" exactly when the change is 0; '100' when the previous count is 0 or NaN; the polarity from the current type; NaN is "worse" |
| Compare.ChangeForTrend | pages/api/mongo-issues/compare.js:94-127 | A record is "new" exactly when no older issue shares its name, and its indicator always matches its trend |
| Compare.CountTrend | pages/api/mongo-issues/compare.js:140-142 | A trend's count never exceeds the number of records |
| Compare.TrendCountsTotal | pages/api/mongo-issues/compare.js:130-142 | The four trend counts sum to the number of change records |
| Compare.SummarizeTrends | pages/api/mongo-issues/compare.js:130-142 | The `forEach` that increments one counter per record gives exactly each trend's count |
| Compare.Resolved | pages/api/mongo-issues/compare.js:144-146 | The resolved issues are exactly the older issues whose name no current issue has, each counted as often as it occurs in the older report |
| Compare.ResolvedNotInChanges | pages/api/mongo-issues/compare.js:93-146 | A resolved issue's name appears in no change record |
| Compare.SelfChange | pages/api/mongo-issues/compare.js:94-124 | Against itself no issue is new; with distinct names and readable counts each record is "unchanged" with change 0 |
| Compare.ResolvedSelf | pages/api/mongo-issues/compare.js:144-146 | Nothing is resolved when a list is compared with itself |
| Compare.SelfComparison | pages/api/mongo-issues/compare.js:93-146 | A report compared with itself counts nothing new or resolved; with distinct names and readable counts every record and the whole tally are "unchanged" |
| Compare.SelfComparisonDuplicateName | pages/api/mongo-issues/compare.js:94-124 | With a repeated name the second issue is compared with the first namesake, so a self-comparison can report "worse" |
| Compare.CompareReports | pages/api/mongo-issues/compare.js:31-146 | A comparison is built exactly when both reports carry metadata; a missing block throws |
| Compare.CompareSummary | pages/api/mongo-issues/compare.js:93-146 | The summary counts each trend, the counts sum to the number of records, and `resolved` counts the resolved issues |
| Compare.CompareHandler | pages/api/mongo-issues/compare.js:4-158 | 405 for a non-GET request, 401 without a session, 404 with fewer than two reports; 200 with the comparison exactly when it can be built, else 500 'Failed to compare reports' |
| Compare.CompareDaysNonNegative | pages/api/mongo-issues/compare.js:18-38 | With reports in descending scan-date order, a successful comparison never has a negative day count |
| Upload.UnquoteCases | pages/api/upload.js:15 | The outer quotes go exactly when both ends are quote characters and at least one non-line-break character lies between; otherwise the string is kept |
| Upload.Unquote | pages/api/upload.js:15 | The string is kept, or loses exactly its two end characters, which are both quotes |
| Upload.CleanValue | pages/api/upload.js:12-16 | A non-string is returned unchanged. A string is unquoted and then trimmed: the result is a contiguous piece of the unquoted string with only white space cut from both ends, and neither starts nor ends with white space |
| Upload.CleanValueQuoteAfterSpace | pages/api/upload.js:15 | A quote after a leading space is kept, because the trim comes after the unquote |
| Upload.CleanValueMixedQuotes | pages/api/upload.js:15 | The two quotes need not be the same character |
| Upload.CleanValueEmptyQuotes | pages/api/upload.js:15 | Two quotes with nothing between them are kept |
| Upload.StripPercent | pages/api/upload.js:39 | Only the first '%' is removed; a missing value stays missing; a number has no `replace` and throws |
| Upload.CleanRecord | pages/api/upload.js:34-42 | Cleaning a record throws exactly when its percentage is a number |
| Upload.CleanRecords | pages/api/upload.js:34-42 | The cleaned list has one record per input record, and cleaning fails exactly when some percentage is a number |
| Upload.CleanRecordFields | pages/api/upload.js:35-41 | Each field is cleaned into its renamed field: description and fix as `cleanValue(x \|\| '')` (so a missing one becomes ''), the percentage with its first '%' removed when a string, and undefined when it is missing or null (`?.` gives undefined) |
| Upload.UploadUrlCount | pages/api/upload.js:53-56 | A falsy URL field counts 0 and a string counts its digits; a truthy non-string throws |
| Upload.TotalUrls | pages/api/upload.js:53-56 | Defined only where every record's URL count can be read (the reduce throws otherwise); never negative, and 0 for no records |
| Upload.UrlsByIssueType | pages/api/upload.js:57-62 | The reduce that mutates its accumulator computes exactly the per-type tally |
| Upload.UrlsByIssueTypeSums | pages/api/upload.js:53-62 | Each type's entry is the sum of its records' counts, and the entries sum to `totalUrls` |
| Upload.UploadMetadata | pages/api/upload.js:50-63 | `totalIssues` is the number of records, `totalUrls` their URL total, and the per-type sums add up to it |
| Upload.UploadHandler | pages/api/upload.js:18-79 | 405 for non-POST, 401 without a session; 200 with a stored report exactly when the records parse and clean and every URL field can be read, with the cleaned records, the domain or 'unknown', the scan time and the computed metadata; otherwise 500 |
| Middleware.PublicPathsPass | middleware.js:7-28 | The login page and login API always pass |
| Middleware.ApiNeedsToken | middleware.js:13-39 | The issue API answers 401 'Unauthorized' without a token and passes with one |
| Middleware.ProtectedRedirects | middleware.js:18-44 | The two protected pages redirect to '/login' without a token |
| Middleware.GateStopsExactly | middleware.js:4-46 | A request is stopped exactly when it has no token and its path is one of the three guarded paths |
| Middleware.OtherPathsPass | middleware.js:26-46 | Membership is exact: the compare API and '/upload' pass with or without a token |
| Middleware.Gate | middleware.js:4-46 | Only a request without a token is stopped: with 401 'Unauthorized' on the issue API, with a redirect to '/login' on a protected page |
| IssueCharts.CategoryTotals | components/IssueCharts.js:26-31 | The reduce succeeds exactly when every URL field is a string, and then computes exactly the per-category tally |
| IssueCharts.CategoryStep | components/IssueCharts.js:27-29 | One step of the reduce adds the issue's digit count to its category |
| IssueCharts.CategorySums | components/IssueCharts.js:26-31 | Each category's value is the sum of its issues' counts, and the values sum to the total count |
| IssueCharts.CategoryKeysClassified | components/IssueCharts.js:27-29 | A category appears exactly when some issue is classified into it, and is always a classifier result |
| IssueCharts.CategoryTotalNonNegative | components/IssueCharts.js:26-31 | The category values sum to a non-negative total |
| IssueCharts.PriorityCounts | components/IssueCharts.js:34-38 | The reduce computes exactly the per-priority count |
| IssueCharts.PriorityCountsSum | components/IssueCharts.js:34-38 | Each priority's value is its number of issues, present exactly for priorities that occur; the values sum to the number of issues |
| CsvParser.IssuesByType | utils/csvParser.js:13-16 | The reduce computes exactly the per-type count |
| CsvParser.IssuesByTypeCounts | utils/csvParser.js:13-16 | Each type's count is its number of issues, present exactly for types that occur; the counts sum to the number of issues |
| CsvParser.StrictUrlTotal | utils/csvParser.js:17-21 | The URL sum succeeds exactly when every URL field is a string |
| CsvParser.StrictUrlTotalIsChartTotal | utils/csvParser.js:17-21 | That sum is the total the category chart distributes |
| CsvParser.ParseCsvData | utils/csvParser.js:4-36 | Missing data or a throwing count gives empty issues and zero metadata. Otherwise the issues are returned as received, with `totalIssues` their number, the per-type counts and the stripped URL total. The total is never negative and the counts sum to `totalIssues` |
| DataParser.LooseUrlTotal | utils/dataParser.js:33-38 | The fallback URL sum is NaN exactly when some URL field is a string without digits |
| DataParser.LooseUrlTotalNonNegative | utils/dataParser.js:33-38 | When it is a number, that sum is non-negative |
| DataParser.LooseAgreesWithStrict | utils/dataParser.js:33-38 | When every URL field is a string with a digit, it equals the CSV parser's total |
| DataParser.DigitFreeUrlsDisagree | utils/dataParser.js:33-38 | On a report with the URL field "n/a" the CSV parser totals 0 while the data parser totals NaN |
| DataParser.ComputedMetadata | utils/dataParser.js:27-38 | The fallback metadata is the count of issues, the per-type counts and the loose URL total |
| DataParser.ParseData | utils/dataParser.js:4-57 | A failed response or missing data gives empty issues and zero metadata. Otherwise the issues are returned as received, with the server's metadata when present, else the computed one |
| MongoIssues.StripQuotes | pages/api/mongo-issues.js:44 | The result is the string without one leading '"' if present and without one trailing '"' if one is left; a string without a quote at either end is unchanged |
| MongoIssues.StripQuotesOnce | pages/api/mongo-issues.js:44 | Only one quote goes from each end; a lone quote becomes empty; an inner quote stays |
| MongoIssues.TemplateMap | pages/api/mongo-issues.js:42-47 | The template map is built exactly when every template name is a string |
| MongoIssues.TemplateMapLast | pages/api/mongo-issues.js:42-47 | Each template is keyed by its stripped name, and the last template with a key wins |
| MongoIssues.Lookup | pages/api/mongo-issues.js:51 | A template is found exactly when the name is a string and a key of the map, and it is the map's entry |
| MongoIssues.TemplateText | pages/api/mongo-issues.js:60-61 | A missing, undefined or null text, or one whose stripped form is empty, gives the default; a non-empty stripped text is returned; a number has no `replace` and throws |
| MongoIssues.Enrich | pages/api/mongo-issues.js:50-63 | The five data fields are copied unchanged; it throws exactly when the template found has a numeric description or fix; otherwise each text is the template text of that field or its default |
| MongoIssues.EnrichWithoutTemplate | pages/api/mongo-issues.js:51-61 | Without a template of the same name, both texts are the defaults |
| MongoIssues.EnrichWithTemplate | pages/api/mongo-issues.js:51-61 | With a template, each text is its stripped text, or the default when that is empty |
| MongoIssues.EnrichAll | pages/api/mongo-issues.js:50-63 | One enriched issue per report issue, in order, failing exactly when one enrichment throws |
| MongoIssues.IssuesHandler | pages/api/mongo-issues.js:3-83 | 405 'Method not allowed' exactly for non-GET, otherwise 200 with a listing or a failure. No report gives the empty listing naming the domain. A listing carries the enriched issues and the stored totals; failure is 'Failed to fetch issues' exactly when the join or the metadata throws |
| IssuesApi.TemplateIndex | pages/api/issues.js:30-33 | The reduce computes exactly the map keyed by template name |
| IssuesApi.TemplateIndexLast | pages/api/issues.js:30-33 | A later template with the same name overwrites an earlier one, and each key appears once |
| IssuesApi.TextOr | pages/api/issues.js:38-39 | A truthy template text is kept; otherwise '' |
| IssuesApi.EnrichRow | pages/api/issues.js:36-40 | 'Description' and 'How To Fix' hold the template text or ''; every other field reads as before |
| IssuesApi.EnrichRowFields | pages/api/issues.js:36-40 | The issue's keys come first in order, with only 'Description' and 'How To Fix' added. Both hold the template text or '', overriding any field of that name; all other fields are unchanged |
| IssuesApi.EnrichRows | pages/api/issues.js:36-40 | One enriched row per report issue, in order |
| IssuesApi.IssuesHandler | pages/api/issues.js:4-57 | 401 without a session. With no report: 500 'Failed to load issues data' with the thrown message and empty data. Otherwise 200 with the enriched rows, the stored metadata and the domain |
| UploadForm.Validate | components/UploadForm.js:14-23 | A missing file or empty domain gives the first message, a name not ending in '.csv' (any case) the second; otherwise nothing stops the submit |
| UploadForm.CsvExtension | components/UploadForm.js:20 | A name ends in '.csv' ignoring case exactly when its last four characters lower-case to '.csv' |
| UploadForm.LineRecord | components/UploadForm.js:35-42 | The name is the first comma-separated piece, and no description or fix is sent |
| UploadForm.LineRecordFields | components/UploadForm.js:35-42 | Fields are assigned by position from the comma split, missing ones are undefined, and there is no description or fix |
| UploadForm.QuotedCommaSplits | components/UploadForm.js:35 | A quoted comma still splits, so the fields shift |
| UploadForm.FormRecords | components/UploadForm.js:34 | One record per line after the header, one per line break of the file |
| UploadForm.TrailingLineBreak | components/UploadForm.js:34 | A trailing line break gives a last record with an empty name |
| UploadForm.Submit | components/UploadForm.js:14-54 | The records are sent exactly when validation passes, with the domain and the form records; otherwise the validation message is shown |
| UploadForm.ResultMessage | components/UploadForm.js:60-70 | An OK response shows the success message; otherwise the server's error or the default; a thrown error the default |
| UploadForm.FormRecordsClean | components/UploadForm.js:34-43 | The form's records always pass the server's cleaning |
| UploadForm.FormUploadSucceeds | components/UploadForm.js:34-54 | A signed-in upload of the form's records is answered 200, counting one issue per line break, provided the body is within the size limit and the database calls succeed (see Left out) |

## Left out

- React rendering and UI state (the `set...` calls, loading flags, charts, colours, icons) are not modelled; only the values they display are.
- Database queries, `fetch`, `FileReader`, `verifyAuth` and cookies are I/O. Their results are parameters of the handlers: the request method, whether the session is valid, the report found, the templates and the response.
- Upload.UploadHandler, Compare.CompareHandler, MongoIssues.IssuesHandler, IssuesApi.IssuesHandler, UploadForm.FormUploadSucceeds: assume the request body was accepted and every database call succeeded, and their "exactly when" statements hold under that assumption. The 5 MB `bodyParser.sizeLimit` of the upload endpoint is not modelled; Next.js answers 413 to a larger body before the handler runs. Failing database calls are not modelled either (`connectToDatabase`, `findOne`, `find`, `insertOne`); they end in the handlers' catch and a 500.
- The `insertOne` of the upload endpoint is modelled as the report the handler returns, not as a database write.
- `JSON.parse`, `Array.isArray` and `response.json()` are modelled by `Option` inputs: `None` stands for a parse failure or a non-list.
- Only the `error.message` text of the issue listing's 500 is modelled. The `details` fields of the other catch branches, and the console logs, are left out.
- `Math.log10` is a parameter with two stated properties (0 at 1, non-negative from 1 on). The exact logarithm and the two-decimal rounding of real scores are therefore not numerically checked.
- Floating point is modelled as exact real arithmetic; `Math.round` is floor(x + 0.5).
- JSON numbers in records are natural numbers. Fractional and negative numbers, booleans and nested objects in record fields are left out.
- Js.Value, Js.ParseIntValue, Js.PropertyKey: a JSON number is an unbounded natural number, read exactly. The engine's doubles lose integer precision above 2^53, and from 10^21 on `String(n)` gives exponent notation ("1e+21"), so `parseInt(n)` and the object key differ from the model's exact value and decimal numeral there. Numbers that large are not modelled.
- `toFixed(1)` percentage strings are a numerator and a denominator, not digits. Only the literal '100' is a value of its own.
- Dates are millisecond timestamps. `toLocaleDateString` and the ISO date string are parameters or left out.
- `toLowerCase` folds ASCII letters only; there is no Unicode case folding. `trim` removes the ECMAScript white-space and line-terminator characters.
- The key order of `Object.entries` for integer-like keys, and keys inherited from `Object.prototype`, are left out (keys are plain insertion order).
- The route matcher regular expression is not modelled. The gate is stated for every path string.
- `getIssueGroup` on a non-string name throws in the code. Names are `Option<string>` here, so that throw is not modelled.
- The client id of the issue listing's query is not a field of the report; the handler is given the report the query found.
- Upload.TotalUrls, Upload.UploadMetadata, Upload.UrlsByIssueTypeSums: require every record's URL count to be readable, because the code's `totalUrls` reduce throws (`replace` on a truthy non-string); `Upload.UploadHandler` checks this first and answers 500, which is the only route by which the throw is modelled.
- Upload.UrlsByIssueType: requires every truthy URL field to be a string, where the code's reduce would throw part-way; `Upload.UploadHandler` checks this before the loop and answers 500, so the partial accumulator is not modelled.
- MongoIssues.StripQuotes: the regular expression with the global flag is stated through its effect on the two ends, not as a regular-expression engine.
- Sorting.SortDesc, SeoUtils.GroupOrder, SeoUtils.GroupIssues, SeoUtils.GroupIssuesStored: with a NaN score the comparator `b - a` gives NaN, which `Array.prototype.sort` reads as 0, so the comparator is inconsistent and the engine's order is implementation-defined. The model fixes the stable insertion order; that order is the model's choice. The result is a permutation of the input in every case, and it is ordered by score only when no score is NaN.
