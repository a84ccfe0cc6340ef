/** The issue listing of the signed-in client: the latest report's issues,
    each with the description and fix text of the template of its name. */
module IssuesApi {
  import opened Js
  import opened Dict
  import opened Records

  /** A stored issue as a plain object: every field it has, in order. */
  type Row = Dict<Value>

  /** `acc[template.issueName]`: the name as an object key. */
  function NameKey(template: Template): string {
    PropertyKey(template.issueName)
  }

  /** The template reduce, as a loop that stores each template under its
      name, a later one replacing an earlier one with the same key. */
  method TemplateIndex(templates: seq<Template>) returns (acc: Dict<Template>)
    ensures acc == FromEntries(KeyedBy(templates, NameKey))
  {
    acc := [];
    var i := 0;
    while i < |templates|
      invariant 0 <= i <= |templates|
      invariant acc == FromEntries(KeyedBy(templates[..i], NameKey))
    {
      KeyedByStep(templates, i, NameKey);
      acc := Put(acc, PropertyKey(templates[i].issueName), templates[i]);
      i := i + 1;
    }
    assert templates[..i] == templates;
  }

  /** Under each key the index holds the last template with that key, and
      its keys are the templates' keys, each once. */
  lemma TemplateIndexLast(templates: seq<Template>, key: string)
    ensures Get(FromEntries(KeyedBy(templates, NameKey)), key) == LastFor(KeyedBy(templates, NameKey), key)
    ensures Distinct(Keys(FromEntries(KeyedBy(templates, NameKey))))
  {
    FromEntriesGet(KeyedBy(templates, NameKey), key);
    FromEntriesKeys(KeyedBy(templates, NameKey));
  }

  /** `templateMap[issue.issueName]`. */
  function TemplateFor(templateMap: Dict<Template>, issue: Row): Option<Template> {
    Get(templateMap, PropertyKey(GetOr(issue, "issueName", Undefined)))
  }

  /** `templateMap[...]?.<field> || ''`. */
  function TextOr(field: Option<Value>): (r: Value)
    ensures field.Some? && Truthy(field.value) ==> r == field.value
    ensures field.None? || !Truthy(field.value) ==> r == Str("")
  {
    if field.Some? then OrElse(field.value, Str("")) else Str("")
  }

  /** `{ ...issue, Description: ..., 'How To Fix': ... }`. */
  function EnrichRow(templateMap: Dict<Template>, issue: Row): (r: Row)
    ensures Get(r, "Description") == Some(TextOr(DescriptionOf(TemplateFor(templateMap, issue))))
    ensures Get(r, "How To Fix") == Some(TextOr(HowToFixOf(TemplateFor(templateMap, issue))))
    ensures forall k :: k != "Description" && k != "How To Fix" ==> Get(r, k) == Get(issue, k)
  {
    var template := TemplateFor(templateMap, issue);
    Put(Put(issue, "Description", TextOr(DescriptionOf(template))), "How To Fix", TextOr(HowToFixOf(template)))
  }

  /** An enriched issue keeps every field of the issue, in order, with
      `Description` and `How To Fix` set from the template (replacing any
      fields of those names) and added at the end when the issue has none;
      no other field changes, and a well-formed object stays one. */
  lemma EnrichRowFields(templateMap: Dict<Template>, issue: Row, k: string)
    requires Distinct(Keys(issue))
    ensures var r := EnrichRow(templateMap, issue);
            var template := TemplateFor(templateMap, issue);
            && Keys(r)[..|Keys(issue)|] == Keys(issue)
            && (forall j :: j in Keys(r) <==> j in Keys(issue) || j == "Description" || j == "How To Fix")
            && Get(r, "Description") == Some(TextOr(DescriptionOf(template)))
            && Get(r, "How To Fix") == Some(TextOr(HowToFixOf(template)))
            && (k != "Description" && k != "How To Fix" ==> Get(r, k) == Get(issue, k))
            && Distinct(Keys(r))
  {
    var template := TemplateFor(templateMap, issue);
    PutPut(issue, "Description", TextOr(DescriptionOf(template)), "How To Fix", TextOr(HowToFixOf(template)), k);
  }

  /** `seoReport.all_issues.map(...)`. */
  function EnrichRows(templateMap: Dict<Template>, issues: seq<Row>): (r: seq<Row>)
    ensures |r| == |issues|
    ensures forall i :: 0 <= i < |issues| ==> r[i] == EnrichRow(templateMap, issues[i])
  {
    seq(|issues|, i requires 0 <= i < |issues| => EnrichRow(templateMap, issues[i]))
  }

  datatype IssuesBody =
    | NotAuthenticated(error: string)
    | IssueData(data: seq<Row>, success: bool, metadata: Option<StoredMetadata>, domain: Value)
    | LoadFailed(error: string, errorDetails: string, success: bool, data: seq<Row>)

  /** The endpoint. `authenticated` is the result of the session check and
      `report` the client's latest stored report, if any. */
  method IssuesHandler(authenticated: bool, report: Option<Report<Row>>, templates: seq<Template>)
    returns (r: Response<IssuesBody>)
    ensures !authenticated ==> r == Response(401, NotAuthenticated("Not authenticated"))
    ensures authenticated && report.None? ==>
              r == Response(500, LoadFailed("Failed to load issues data", "No SEO report found for this client", false, []))
    ensures authenticated && report.Some? ==>
              && r.status == 200 && r.body.IssueData? && r.body.success
              && r.body.data == EnrichRows(FromEntries(KeyedBy(templates, NameKey)), report.value.allIssues)
              && r.body.metadata == report.value.metadata && r.body.domain == report.value.domainName
  {
    if !authenticated {
      return Response(401, NotAuthenticated("Not authenticated"));
    }
    if report.None? {
      return Response(500, LoadFailed("Failed to load issues data", "No SEO report found for this client", false, []));
    }
    var templateMap := TemplateIndex(templates);
    var enriched := EnrichRows(templateMap, report.value.allIssues);
    return Response(200, IssueData(enriched, true, report.value.metadata, report.value.domainName));
  }
}
