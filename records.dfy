/** The records the application passes around: issue rows as the pages read
    them, records as posted for upload, issues and reports as stored, and
    issue templates; together with the three ways the code reads a URL
    count out of a field. */
module Records {
  import opened Text
  import opened Js
  import opened Dict

  /** An issue row as the pages read it, through the keys 'Issue Name',
      'Issue Type', 'Issue Priority' and 'URLs'. A name is a string or
      missing. */
  datatype Issue = Issue(name: Option<string>, issueType: Value, priority: Value, urls: Value)

  /** A record as posted to the upload endpoint, under the keys 'Issue Name',
      'Issue Type', 'Issue Priority', 'URLs', '% of Total', 'Description' and
      'How To Fix'; a missing key reads as `Undefined`. */
  datatype UploadRecord = UploadRecord(
    issueName: Value, issueType: Value, issuePriority: Value, urls: Value,
    percentOfTotal: Value, description: Value, howToFix: Value)

  /** An issue as stored in a report and as returned by the issue listing. */
  datatype StoredIssue = StoredIssue(
    issueName: Value, issueType: Value, issuePriority: Value, urls: Value,
    percentageOfTotal: Value, description: Value, howToFix: Value)

  /** The summary stored with a report. */
  datatype StoredMetadata = StoredMetadata(
    totalIssues: int, generatedAt: string, totalUrls: int, urlsByIssueType: Dict<int>)

  /** A stored report; `scanDate` is a timestamp in milliseconds and the
      issues are of type `I` (records, or plain objects where every field
      matters). A report without a metadata block has `None`. */
  datatype Report<I> = Report(scanDate: int, allIssues: seq<I>, metadata: Option<StoredMetadata>, domainName: Value)

  /** An HTTP response: a status code and a JSON body. */
  datatype Response<B> = Response(status: int, body: B)

  /** A stored issue template: the explanation shown for one issue name. */
  datatype Template = Template(issueName: Value, description: Value, howToFix: Value)

  /** `template?.description`: the field of the template found, if any. */
  function DescriptionOf(template: Option<Template>): Option<Value> {
    if template.Some? then Some(template.value.description) else None
  }

  /** `template?.howToFix`. */
  function HowToFixOf(template: Option<Template>): Option<Value> {
    if template.Some? then Some(template.value.howToFix) else None
  }

  /** `parseInt(s.replace(/[^0-9]/g, '')) || 0`: the number the digits of
      `s` spell, or 0 when it has none (see `StrippedCountParses`). */
  function StrippedCount(s: string): (n: nat)
    ensures (forall i :: 0 <= i < |s| ==> !IsDecimalDigit(s[i])) ==> n == 0
    ensures (forall i :: 0 <= i < |s| ==> IsDecimalDigit(s[i])) ==> n == DigitsValue(s, 10)
  {
    var digits := DigitsOnly(s);
    if forall i :: 0 <= i < |s| ==> IsDecimalDigit(s[i]) then
      DigitsOnlyKeepsDigits(s);
      if digits == [] then 0 else DigitsValue(digits, 10)
    else if digits == [] then 0 else DigitsValue(digits, 10)
  }

  lemma StrippedCountParses(s: string)
    ensures StrippedCount(s) == ParseDigits(s).Or0()
  {
    ParseDigitsValue(s);
  }

  /** `parseInt(v.replace(/[^0-9]/g, '')) || 0` where `v` must be a string:
      any other value has no `replace`, and the call throws (`None`). */
  function StrictCount(v: Value): (r: Option<nat>)
    ensures r.Some? <==> v.Str?
    ensures v.Str? ==> r.value == StrippedCount(v.s)
  {
    if v.Str? then Some(StrippedCount(v.s)) else None
  }

  /** `typeof v === 'string' ? parseInt(v.replace(/[^0-9]/g, '')) :
      parseInt(v) || 0`. Operator precedence puts the `|| 0` on the second
      branch only, so a string without digits gives NaN, while a missing
      value gives 0 (see `LooseCountParses`). */
  function LooseCount(v: Value): (r: Num)
    ensures r.NaN? <==> v.Str? && DigitsOnly(v.s) == []
    ensures r.Int? ==> r.value >= 0
  {
    match v
    case Undefined => Int(0)
    case Null => Int(0)
    case Number(n) => Int(n)
    case Str(s) => if DigitsOnly(s) == [] then NaN else Int(DigitsValue(DigitsOnly(s), 10))
  }

  lemma LooseCountParses(v: Value)
    ensures v.Str? ==> LooseCount(v) == ParseDigits(v.s)
    ensures !v.Str? ==> LooseCount(v) == Int(ParseIntValue(v).Or0())
  {
    if v.Str? {
      ParseDigitsValue(v.s);
    }
  }
}
