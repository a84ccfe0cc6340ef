/** The upload endpoint: it cleans the posted records, stores them as a
    report with a summary block, and answers with the number of issues. */
module Upload {
  import opened Text
  import opened Js
  import opened Dict
  import opened Records

  predicate IsQuote(c: char) {
    c == '"' || c == '\''
  }

  /** `s.replace(/^["'](.+)["']$/, '$1')`: a quote character at both ends
      (either kind, not necessarily the same) with at least one character
      between them, none of which is a line terminator, is removed. */
  function Unquote(s: string): (r: string)
    ensures r == s || (|s| >= 3 && IsQuote(s[0]) && IsQuote(s[|s| - 1]) && r == s[1..|s| - 1])
  {
    if |s| >= 3 && IsQuote(s[0]) && IsQuote(s[|s| - 1])
       && forall i :: 1 <= i < |s| - 1 ==> !IsLineTerminator(s[i])
    then s[1..|s| - 1]
    else s
  }

  /** Unquoting removes exactly the two end characters, and only when both
      are quotes with a line-terminator-free middle; otherwise it changes
      nothing. */
  lemma UnquoteCases(s: string)
    ensures Unquote(s) != s ==> |s| >= 3 && IsQuote(s[0]) && IsQuote(s[|s| - 1]) && Unquote(s) == s[1..|s| - 1]
    ensures (|s| >= 3 && IsQuote(s[0]) && IsQuote(s[|s| - 1])
             && forall i :: 1 <= i < |s| - 1 ==> !IsLineTerminator(s[i])) ==> Unquote(s) == s[1..|s| - 1]
    ensures (|s| < 3 || !IsQuote(s[0]) || !IsQuote(s[|s| - 1])
             || exists i :: 1 <= i < |s| - 1 && IsLineTerminator(s[i])) ==> Unquote(s) == s
  {
  }

  /** `cleanValue`: strings are unquoted and then trimmed; anything else is
      returned unchanged. For a string, the result is the unquoted string
      with its leading and trailing white space cut off: a contiguous piece
      of it that neither starts nor ends with white space. */
  function CleanValue(v: Value): (r: Value)
    ensures !v.Str? ==> r == v
    ensures v.Str? ==> r == Str(Trim(Unquote(v.s)))
    ensures v.Str? ==>
              var u := Unquote(v.s);
              var i := |u| - |TrimStart(u)|;
              && r.Str? && |r.s| <= |v.s|
              && 0 <= i && i + |r.s| <= |u| && r.s == u[i..i + |r.s|]
              && (forall k :: 0 <= k < i ==> IsJsSpace(u[k]))
              && (forall k :: i + |r.s| <= k < |u| ==> IsJsSpace(u[k]))
              && (r.s == [] || (!IsJsSpace(r.s[0]) && !IsJsSpace(r.s[|r.s| - 1])))
  {
    if v.Str? then
      TrimFacts(Unquote(v.s));
      Str(Trim(Unquote(v.s)))
    else v
  }

  /** Unquoting comes before trimming, so a quote behind a space stays. */
  lemma CleanValueQuoteAfterSpace()
    ensures CleanValue(Str(" 'a'")) == Str("'a'")
  {
    assert Unquote(" 'a'") == " 'a'";
    assert TrimStart("'a'") == "'a'";
    assert TrimStart(" 'a'") == "'a'";
    assert TrimEnd("'a'") == "'a'";
  }

  /** The two quote characters need not match. */
  lemma CleanValueMixedQuotes()
    ensures CleanValue(Str("\"x'")) == Str("x")
  {
    assert Unquote("\"x'") == "x";
    assert TrimStart("x") == "x" && TrimEnd("x") == "x";
  }

  /** A pair of quotes with nothing between them stays. */
  lemma CleanValueEmptyQuotes()
    ensures CleanValue(Str("\"\"")) == Str("\"\"")
  {
    assert Unquote("\"\"") == "\"\"";
    assert TrimStart("\"\"") == "\"\"" && TrimEnd("\"\"") == "\"\"";
  }

  /** `v?.replace('%', '')`: only the first percent sign goes; a missing
      value stays missing, and a number, which has no `replace`, throws. */
  function StripPercent(v: Value): (r: Option<Value>)
    ensures r.None? <==> v.Number?
    ensures v.Str? ==> r == Some(Str(RemoveFirst(v.s, '%')))
    ensures v.Undefined? || v.Null? ==> r == Some(Undefined)
  {
    match v
    case Undefined => Some(Undefined)
    case Null => Some(Undefined)
    case Number(_) => None
    case Str(s) => Some(Str(RemoveFirst(s, '%')))
  }

  /** One posted record, renamed and cleaned; `None` when it throws. */
  function CleanRecord(r: UploadRecord): (c: Option<StoredIssue>)
    ensures c.None? <==> r.percentOfTotal.Number?
  {
    match StripPercent(r.percentOfTotal)
    case None => None
    case Some(percent) =>
      Some(StoredIssue(
        CleanValue(r.issueName), CleanValue(r.issueType), CleanValue(r.issuePriority), CleanValue(r.urls),
        CleanValue(percent), CleanValue(OrElse(r.description, Str(""))), CleanValue(OrElse(r.howToFix, Str("")))))
  }

  /** `records.map(...)`: the cleaned records, one per posted record in the
      same order, or `None` when one of them throws. */
  function CleanRecords(records: seq<UploadRecord>): (r: Option<seq<StoredIssue>>)
    ensures r.Some? <==> forall i :: 0 <= i < |records| ==> !records[i].percentOfTotal.Number?
    ensures r.Some? ==> |r.value| == |records|
                        && forall i :: 0 <= i < |records| ==> CleanRecord(records[i]) == Some(r.value[i])
  {
    MapOption(records, record => CleanRecord(record))
  }

  /** The fields of a cleaned record: names, type, priority and counts are
      cleaned copies, a missing description or fix text becomes `''`, and the
      percentage loses its first `%`. */
  lemma CleanRecordFields(r: UploadRecord)
    requires !r.percentOfTotal.Number?
    ensures var c := CleanRecord(r).value;
            && c.issueName == CleanValue(r.issueName) && c.issueType == CleanValue(r.issueType)
            && c.issuePriority == CleanValue(r.issuePriority) && c.urls == CleanValue(r.urls)
            && (r.percentOfTotal.Str? ==> c.percentageOfTotal == CleanValue(Str(RemoveFirst(r.percentOfTotal.s, '%'))))
            && (r.percentOfTotal.Undefined? || r.percentOfTotal.Null? ==> c.percentageOfTotal == Undefined)
            && c.description == CleanValue(OrElse(r.description, Str("")))
            && c.howToFix == CleanValue(OrElse(r.howToFix, Str("")))
            && (!Truthy(r.description) ==> c.description == Str(""))
            && (!Truthy(r.howToFix) ==> c.howToFix == Str(""))
  {
  }

  /** `parseInt((urls || '0').replace(/[^0-9]/g, '') || 0)`: 0 for a falsy
      value, the digit count of a string; a truthy non-string has no
      `replace` and throws. */
  function UploadUrlCount(v: Value): (r: Option<nat>)
    ensures r.None? <==> Truthy(v) && !v.Str?
    ensures !Truthy(v) ==> r == Some(0)
    ensures v.Str? ==> r == Some(StrippedCount(v.s))
  {
    if !Truthy(v) then Some(0)
    else if v.Str? then Some(StrippedCount(v.s))
    else None
  }

  /** Every record's URL count can be read. */
  predicate UrlsReadable(records: seq<StoredIssue>) {
    forall i :: 0 <= i < |records| ==> UploadUrlCount(records[i].urls).Some?
  }

  /** A record's URL count, where it can be read. */
  function UrlAmount(record: StoredIssue): int {
    match UploadUrlCount(record.urls)
    case Some(n) => n
    case None => 0
  }

  /** `acc[record.issueType]`: the type as an object key. */
  function TypeKey(record: StoredIssue): string {
    PropertyKey(record.issueType)
  }

  /** Each record's type (as an object key) with its URL count. */
  function UrlEntries(records: seq<StoredIssue>): seq<(string, int)> {
    Amounts(records, TypeKey, UrlAmount)
  }

  /** `totalUrls`: the sum of the URL counts, never negative since every
      count is a natural number. The source's reduce throws on a count that
      cannot be read, so it is only defined where every count can be. */
  function TotalUrls(records: seq<StoredIssue>): (n: int)
    requires UrlsReadable(records)
    ensures n >= 0
    ensures records == [] ==> n == 0
  {
    AmountsTotalNonNegative(records, TypeKey, UrlAmount);
    Total(UrlEntries(records))
  }

  /** The `urlsByIssueType` reduce, as a loop that adds each record's count
      to its type's running sum. It runs after the `totalUrls` sum, which
      has already thrown on a count that cannot be read. */
  method UrlsByIssueType(records: seq<StoredIssue>) returns (acc: Dict<int>)
    requires UrlsReadable(records)
    ensures acc == Tally(UrlEntries(records))
  {
    acc := [];
    var i := 0;
    while i < |records|
      invariant 0 <= i <= |records|
      invariant acc == Tally(UrlEntries(records[..i]))
    {
      var urls := UploadUrlCount(records[i].urls).value;
      AmountsStep(records, i, TypeKey, UrlAmount);
      TallySnoc(UrlEntries(records[..i]), (TypeKey(records[i]), urls));
      acc := Bump(acc, TypeKey(records[i]), urls);
      i := i + 1;
    }
    assert records[..i] == records;
  }

  /** Each type's value is the sum of the counts of the records of that
      type, the types are those that occur, and the values add up to
      `totalUrls`. */
  lemma UrlsByIssueTypeSums(records: seq<StoredIssue>, t: string)
    requires UrlsReadable(records)
    ensures Get(Tally(UrlEntries(records)), t) ==
              if t in EntryKeys(UrlEntries(records)) then Some(SumFor(UrlEntries(records), t)) else None
    ensures SumValues(Tally(UrlEntries(records))) == TotalUrls(records)
  {
    TallyGet(UrlEntries(records), t);
    TallyTotal(UrlEntries(records));
  }

  /** The summary block stored with an upload. */
  function UploadMetadata(cleaned: seq<StoredIssue>, today: string): (m: StoredMetadata)
    requires UrlsReadable(cleaned)
    ensures m.totalIssues == |cleaned| && m.generatedAt == today
    ensures m.totalUrls == TotalUrls(cleaned) && SumValues(m.urlsByIssueType) == m.totalUrls
  {
    TallyTotal(UrlEntries(cleaned));
    StoredMetadata(|cleaned|, today, TotalUrls(cleaned), Tally(UrlEntries(cleaned)))
  }

  datatype UploadBody =
    | UploadError(error: string)
    | Uploaded(success: bool, message: string)

  function UploadMessage(count: nat): string {
    "Successfully uploaded SEO report with " + NatToString(count) + " issues"
  }

  /** The upload endpoint. `records` is the posted record list after
      `Array.isArray(...) ? ... : JSON.parse(...)`, `None` when parsing
      fails or gives no list; `now` is the scan time in milliseconds and
      `today` the date part of its ISO form. Returns the response and the
      report stored, if any. */
  function UploadHandler(httpMethod: string, authenticated: bool, domain: Value,
                         records: Option<seq<UploadRecord>>, now: int, today: string)
    : (r: (Response<UploadBody>, Option<Report<StoredIssue>>))
    ensures httpMethod != "POST" ==> r.0 == Response(405, UploadError("Method not allowed")) && r.1.None?
    ensures httpMethod == "POST" && !authenticated ==> r.0 == Response(401, UploadError("Not authenticated")) && r.1.None?
    ensures r.1.Some? <==> r.0.status == 200
    ensures r.0.status == 200 <==>
              && httpMethod == "POST" && authenticated && records.Some?
              && CleanRecords(records.value).Some? && UrlsReadable(CleanRecords(records.value).value)
    ensures r.0.status == 200 ==>
              && records.Some? && CleanRecords(records.value).Some?
              && r.0.body == Uploaded(true, UploadMessage(|records.value|))
              && r.1.value.allIssues == CleanRecords(records.value).value
              && r.1.value.domainName == OrElse(domain, Str("unknown"))
              && r.1.value.scanDate == now
              && r.1.value.metadata == Some(UploadMetadata(CleanRecords(records.value).value, today))
              && r.1.value.metadata.value.totalIssues == |records.value|
    ensures r.0.status != 200 && r.0.status != 405 && r.0.status != 401 ==>
              r.0 == Response(500, UploadError("Failed to process upload"))
  {
    if httpMethod != "POST" then (Response(405, UploadError("Method not allowed")), None)
    else if !authenticated then (Response(401, UploadError("Not authenticated")), None)
    else if records.None? then (Response(500, UploadError("Failed to process upload")), None)
    else
      match CleanRecords(records.value)
      case None => (Response(500, UploadError("Failed to process upload")), None)
      case Some(cleaned) =>
        if !UrlsReadable(cleaned) then (Response(500, UploadError("Failed to process upload")), None)
        else
          var report := Report(now, cleaned, Some(UploadMetadata(cleaned, today)), OrElse(domain, Str("unknown")));
          (Response(200, Uploaded(true, UploadMessage(|cleaned|))), Some(report))
  }
}
