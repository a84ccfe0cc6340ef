/** The issue listing by domain: the latest report's issues joined with
    the stored issue templates by name. */
module MongoIssues {
  import opened Js
  import opened Dict
  import opened Records

  const NO_DESCRIPTION := "No description available"
  const NO_FIX := "No fix instructions available"

  /** `s.replace(/^"|"$/g, '')`: one `"` at the start and one at the end
      are removed. */
  function StripQuotes(s: string): (r: string)
    ensures var i := if |s| > 0 && s[0] == '"' then 1 else 0;
            && i + |r| <= |s| && r == s[i..i + |r|]
            && |s| - 1 <= i + |r|
            && (i + |r| < |s| ==> s[|s| - 1] == '"')
            && i + |r| == |s| - (if |s| > i && s[|s| - 1] == '"' then 1 else 0)
    ensures |s| > 0 && s[0] != '"' && s[|s| - 1] != '"' ==> r == s
  {
    var t := if |s| > 0 && s[0] == '"' then s[1..] else s;
    if |t| > 0 && t[|t| - 1] == '"' then t[..|t| - 1] else t
  }

  /** Only one quote goes from each end, and a lone quote goes entirely. */
  lemma StripQuotesOnce()
    ensures StripQuotes("\"\"a\"\"") == "\"a\""
    ensures StripQuotes("\"") == ""
    ensures StripQuotes("a\"b") == "a\"b"
  {
    assert "\"\"a\"\""[1..] == "\"a\"\"";
    assert "\"a\"\""[..3] == "\"a\"";
  }

  /** A template's entry of the lookup map: its name without surrounding
      quotes. A name that is not a string has no `replace`: `None`. */
  function TemplateEntry(template: Template): Option<(string, Template)> {
    if template.issueName.Str? then Some((StripQuotes(template.issueName.s), template)) else None
  }

  /** `new Map(templates.map(...))`: later entries with the same key replace
      earlier ones. */
  function TemplateMap(templates: seq<Template>): (r: Option<Dict<Template>>)
    ensures r.Some? <==> forall i :: 0 <= i < |templates| ==> templates[i].issueName.Str?
  {
    match MapOption(templates, TemplateEntry)
    case None => None
    case Some(entries) => Some(FromEntries(entries))
  }

  /** Looking a cleaned name up finds the last template with that cleaned
      name. */
  lemma TemplateMapLast(templates: seq<Template>, name: string)
    requires TemplateMap(templates).Some?
    ensures var entries := MapOption(templates, TemplateEntry).value;
            && |entries| == |templates|
            && (forall i :: 0 <= i < |templates| ==> entries[i] == (StripQuotes(templates[i].issueName.s), templates[i]))
            && Get(TemplateMap(templates).value, name) == LastFor(entries, name)
  {
    var entries := MapOption(templates, TemplateEntry).value;
    FromEntriesGet(entries, name);
  }

  /** `templateMap.get(issue.issueName)`: the map's keys are strings, so a
      name of any other kind finds nothing. */
  function Lookup(templateMap: Dict<Template>, name: Value): (r: Option<Template>)
    ensures r.Some? <==> name.Str? && name.s in Keys(templateMap)
    ensures r.Some? ==> r == Get(templateMap, name.s)
  {
    if name.Str? then Get(templateMap, name.s) else None
  }

  /** `template?.<field>?.replace(/^"|"$/g, '') || fallback`, given the
      field of the template found, if any; a number in the field has no
      `replace` and throws. */
  function TemplateText(field: Option<Value>, fallback: string): (r: Option<string>)
    ensures r.None? <==> field.Some? && field.value.Number?
    ensures r.Some? && r.value != fallback ==> field.Some? && field.value.Str? && r.value == StripQuotes(field.value.s)
    ensures field.Some? && field.value.Str? && StripQuotes(field.value.s) != "" ==> r == Some(StripQuotes(field.value.s))
    ensures field.None? || field.value.Undefined? || field.value.Null? ==> r == Some(fallback)
    ensures field.Some? && field.value.Str? && StripQuotes(field.value.s) == "" ==> r == Some(fallback)
  {
    match field
    case None => Some(fallback)
    case Some(v) =>
      match v
      case Undefined => Some(fallback)
      case Null => Some(fallback)
      case Number(_) => None
      case Str(s) => if StripQuotes(s) == "" then Some(fallback) else Some(StripQuotes(s))
  }

  /** One enriched issue: the five data fields copied, the texts from the
      template of the same name; it throws exactly when that template holds
      a number in one of its texts. */
  function Enrich(templateMap: Dict<Template>, issue: StoredIssue): (r: Option<StoredIssue>)
    ensures r.Some? ==>
              && r.value.issueName == issue.issueName && r.value.issueType == issue.issueType
              && r.value.issuePriority == issue.issuePriority && r.value.urls == issue.urls
              && r.value.percentageOfTotal == issue.percentageOfTotal
              && r.value.description.Str? && r.value.howToFix.Str?
    ensures r.None? <==>
              var t := Lookup(templateMap, issue.issueName);
              t.Some? && (t.value.description.Number? || t.value.howToFix.Number?)
    ensures r.Some? ==>
              && Some(r.value.description.s) == TemplateText(DescriptionOf(Lookup(templateMap, issue.issueName)), NO_DESCRIPTION)
              && Some(r.value.howToFix.s) == TemplateText(HowToFixOf(Lookup(templateMap, issue.issueName)), NO_FIX)
  {
    var template := Lookup(templateMap, issue.issueName);
    match (TemplateText(DescriptionOf(template), NO_DESCRIPTION), TemplateText(HowToFixOf(template), NO_FIX))
    case (Some(description), Some(howToFix)) =>
      Some(StoredIssue(issue.issueName, issue.issueType, issue.issuePriority, issue.urls,
                       issue.percentageOfTotal, Str(description), Str(howToFix)))
    case _ => None
  }

  /** An issue without a template of its name gets both default texts. */
  lemma EnrichWithoutTemplate(templateMap: Dict<Template>, issue: StoredIssue)
    requires Lookup(templateMap, issue.issueName).None?
    ensures Enrich(templateMap, issue) == Some(issue.(description := Str(NO_DESCRIPTION), howToFix := Str(NO_FIX)))
  {
  }

  /** An issue with a template takes the template's texts, quotes
      stripped, or the defaults where they are missing or empty. */
  lemma EnrichWithTemplate(templateMap: Dict<Template>, issue: StoredIssue, template: Template)
    requires Lookup(templateMap, issue.issueName) == Some(template)
    requires template.description.Str? && template.howToFix.Str?
    ensures var d := StripQuotes(template.description.s);
            var f := StripQuotes(template.howToFix.s);
            Enrich(templateMap, issue) ==
              Some(issue.(description := Str(if d == "" then NO_DESCRIPTION else d),
                          howToFix := Str(if f == "" then NO_FIX else f)))
  {
  }

  function EnrichWith(templateMap: Dict<Template>): StoredIssue -> Option<StoredIssue> {
    issue => Enrich(templateMap, issue)
  }

  /** `report.all_issues.map(...)`: one enriched issue per report issue, in
      order, or `None` when one of them throws. */
  function EnrichAll(templateMap: Dict<Template>, issues: seq<StoredIssue>): (r: Option<seq<StoredIssue>>)
    ensures r.Some? ==> |r.value| == |issues|
                        && forall i :: 0 <= i < |issues| ==> Enrich(templateMap, issues[i]) == Some(r.value[i])
    ensures r.None? <==> exists i :: 0 <= i < |issues| && Enrich(templateMap, issues[i]).None?
  {
    MapOption(issues, EnrichWith(templateMap))
  }

  datatype ListingMetadata = ListingMetadata(totalIssues: int, totalUrls: int, urlsByIssueType: Dict<int>, domain: Value)

  datatype ListingBody =
    | MethodNotAllowed(error: string)
    | Listing(success: bool, data: seq<StoredIssue>, metadata: ListingMetadata)
    | Failed(success: bool, error: string)

  /** The listing endpoint. `domain` is the query parameter, `report` the
      latest stored report for that domain (if any) and `templates` all
      stored templates. */
  function IssuesHandler(httpMethod: string, domain: Value, report: Option<Report<StoredIssue>>, templates: seq<Template>)
    : (r: Response<ListingBody>)
    ensures r.status == 405 <==> httpMethod != "GET"
    ensures r.status != 405 ==> r.status == 200
    ensures httpMethod != "GET" ==> r.body == MethodNotAllowed("Method not allowed")
    ensures httpMethod == "GET" ==> r.body.Listing? || r.body.Failed?
    ensures httpMethod == "GET" && report.None? ==> r.body == Listing(true, [], ListingMetadata(0, 0, [], domain))
    ensures httpMethod == "GET" && report.Some? && r.body.Listing? ==>
              && TemplateMap(templates).Some? && report.value.metadata.Some?
              && EnrichAll(TemplateMap(templates).value, report.value.allIssues) == Some(r.body.data)
              && r.body.metadata.totalIssues == report.value.metadata.value.totalIssues
              && r.body.metadata.totalUrls == report.value.metadata.value.totalUrls
              && r.body.metadata.urlsByIssueType == report.value.metadata.value.urlsByIssueType
              && r.body.metadata.domain == report.value.domainName
    ensures r.body.Failed? <==>
              httpMethod == "GET" && report.Some?
              && (TemplateMap(templates).None? || EnrichAll(TemplateMap(templates).value, report.value.allIssues).None?
                  || report.value.metadata.None?)
    ensures r.body.Failed? ==> r.body == Failed(false, "Failed to fetch issues")
    ensures r.body.Listing? ==> r.body.success
  {
    if httpMethod != "GET" then Response(405, MethodNotAllowed("Method not allowed"))
    else if report.None? then Response(200, Listing(true, [], ListingMetadata(0, 0, [], domain)))
    else
      var failure := Response(200, Failed(false, "Failed to fetch issues"));
      match TemplateMap(templates)
      case None => failure
      case Some(templateMap) =>
        match EnrichAll(templateMap, report.value.allIssues)
        case None => failure
        case Some(enriched) =>
          match report.value.metadata
          case None => failure
          case Some(m) =>
            Response(200, Listing(true, enriched, ListingMetadata(m.totalIssues, m.totalUrls, m.urlsByIssueType, report.value.domainName)))
  }
}
