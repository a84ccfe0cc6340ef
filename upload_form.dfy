/** The upload form's submit step: it checks the inputs, turns the CSV
    text into records by position and reports the server's answer. */
module UploadForm {
  import opened Text
  import opened Js
  import opened Records
  import opened Upload

  const MISSING_INPUT := "Please select a file and enter a domain"
  const NOT_CSV := "Please upload a CSV file"
  const UPLOADED := "File uploaded successfully"
  const UPLOAD_FAILED := "Error uploading file"

  /** The checks before reading the file: `file` is the chosen file's name,
      `None` when no file is chosen. The message shown, or `None` when the
      file is read and sent. */
  function Validate(file: Option<string>, domain: string): (message: Option<string>)
    ensures message == Some(MISSING_INPUT) <==> file.None? || domain == ""
    ensures message == Some(NOT_CSV) <==> file.Some? && domain != "" && !EndsWith(Lower(file.value), ".csv")
    ensures message.None? <==> file.Some? && domain != "" && EndsWith(Lower(file.value), ".csv")
  {
    if file.None? || domain == "" then Some(MISSING_INPUT)
    else if !EndsWith(Lower(file.value), ".csv") then Some(NOT_CSV)
    else None
  }

  /** The extension test looks at the last four characters only, with
      their ASCII letters lowercased. */
  lemma CsvExtension(name: string)
    ensures EndsWith(Lower(name), ".csv") <==> |name| >= 4 && Lower(name[|name| - 4..]) == ".csv"
  {
    if |name| >= 4 {
      LowerSuffix(name, |name| - 4);
    }
  }

  /** The field at position `i` of a split line, `undefined` past its
      end. */
  function FieldAt(fields: seq<string>, i: nat): Value {
    if i < |fields| then Str(fields[i]) else Undefined
  }

  /** `const [issueName, issueType, issuePriority, urls, percentageOfTotal]
      = line.split(',')`: the first five fields, by position. */
  function LineRecord(line: string): (r: UploadRecord)
    ensures r.issueName == Str(Split(line, ',')[0])
    ensures r.description == Undefined && r.howToFix == Undefined
  {
    var fields := Split(line, ',');
    UploadRecord(FieldAt(fields, 0), FieldAt(fields, 1), FieldAt(fields, 2), FieldAt(fields, 3),
                 FieldAt(fields, 4), Undefined, Undefined)
  }

  /** A line's record holds its comma-separated pieces in order: the ones
      present as strings, the missing ones undefined, and pieces after the
      fifth dropped; no text is sent for the description or the fix. */
  lemma LineRecordFields(line: string)
    ensures var fields := Split(line, ',');
            var r := LineRecord(line);
            && r.issueName == Str(fields[0])
            && (|fields| > 1 <==> r.issueType.Str?) && (|fields| > 1 ==> r.issueType == Str(fields[1]))
            && (|fields| > 2 <==> r.issuePriority.Str?) && (|fields| > 2 ==> r.issuePriority == Str(fields[2]))
            && (|fields| > 3 <==> r.urls.Str?) && (|fields| > 3 ==> r.urls == Str(fields[3]))
            && (|fields| > 4 <==> r.percentOfTotal.Str?) && (|fields| > 4 ==> r.percentOfTotal == Str(fields[4]))
            && r.description == Undefined && r.howToFix == Undefined
            && |fields| == Occurrences(line, ',') + 1
  {
  }

  /** There is no quote handling: a comma inside quotes still splits. */
  lemma QuotedCommaSplits()
    ensures LineRecord("\"a,b\",Issue").issueName == Str("\"a")
    ensures LineRecord("\"a,b\",Issue").issueType == Str("b\"")
    ensures LineRecord("\"a,b\",Issue").issuePriority == Str("Issue")
    ensures LineRecord("\"a,b\",Issue").issueName != Str("\"a,b\"")
  {
    assert "\"a,b\",Issue" == "\"a" + [','] + ("b\"" + [','] + "Issue");
    SplitWithoutSeparator("Issue", ',');
    SplitAtFirst("b\"", ',', "Issue");
    SplitAtFirst("\"a", ',', "b\"" + [','] + "Issue");
  }

  /** `csvContent.split('\n').slice(1).map(...)`: one record per line
      after the header line, so one per line break, in order. */
  function FormRecords(content: string): (records: seq<UploadRecord>)
    ensures |records| == Occurrences(content, '\n')
    ensures forall i :: 0 <= i < |records| ==> records[i] == LineRecord(Split(content, '\n')[i + 1])
  {
    var lines := Split(content, '\n');
    seq(|lines| - 1, i requires 0 <= i < |lines| - 1 => LineRecord(lines[i + 1]))
  }

  /** The header line gives no record, and a trailing line break gives a
      record of an empty line. */
  lemma TrailingLineBreak()
    ensures FormRecords("h\nx\n") == [LineRecord("x"), LineRecord("")]
    ensures LineRecord("").issueName == Str("") && LineRecord("").issueType == Undefined
  {
    assert "h\nx\n" == "h" + ['\n'] + ("x" + ['\n'] + "");
    SplitWithoutSeparator("", '\n');
    SplitAtFirst("x", '\n', "");
    SplitAtFirst("h", '\n', "x" + ['\n'] + "");
    SplitWithoutSeparator("", ',');
  }

  /** What a submit does: show a message, or send these records. */
  datatype Submission = Rejected(message: string) | Send(domain: string, records: seq<UploadRecord>)

  /** `handleSubmit` up to the request: the inputs are checked and the
      file's text is turned into records. */
  function Submit(file: Option<string>, domain: string, content: string): (s: Submission)
    ensures s.Send? <==> Validate(file, domain).None?
    ensures s.Rejected? ==> Some(s.message) == Validate(file, domain)
    ensures s.Send? ==> s.domain == domain && s.records == FormRecords(content)
  {
    match Validate(file, domain)
    case Some(message) => Rejected(message)
    case None => Send(domain, FormRecords(content))
  }

  /** The message after the request: `response` is `None` when the request
      or its JSON body fails, otherwise `response.ok` and the body's `error`
      field. */
  function ResultMessage(response: Option<(bool, Value)>): (message: Value)
    ensures response.None? ==> message == Str(UPLOAD_FAILED)
    ensures response.Some? && response.value.0 ==> message == Str(UPLOADED)
    ensures response.Some? && !response.value.0 ==>
              message == if Truthy(response.value.1) then response.value.1 else Str(UPLOAD_FAILED)
  {
    match response
    case None => Str(UPLOAD_FAILED)
    case Some((ok, error)) => if ok then Str(UPLOADED) else OrElse(error, Str(UPLOAD_FAILED))
  }

  /** The form's records always pass the server's cleaning, since every
      field is a string or missing. */
  lemma FormRecordsClean(content: string)
    ensures CleanRecords(FormRecords(content)).Some?
  {
    var records := FormRecords(content);
    forall i | 0 <= i < |records| ensures !records[i].percentOfTotal.Number? {
      LineRecordFields(Split(content, '\n')[i + 1]);
    }
  }

  /** A signed-in upload of the form's records is answered 200 whenever the
      body is accepted and the database calls succeed (the handler's
      inputs assume both), and the success message counts one issue per
      line break of the file. */
  lemma FormUploadSucceeds(content: string, domain: string, now: int, today: string)
    ensures UploadHandler("POST", true, Str(domain), Some(FormRecords(content)), now, today).0 ==
              Response(200, Uploaded(true, UploadMessage(Occurrences(content, '\n'))))
  {
    var records := FormRecords(content);
    FormRecordsClean(content);
    var cleaned := CleanRecords(records).value;
    forall i | 0 <= i < |cleaned| ensures UploadUrlCount(cleaned[i].urls).Some? {
      LineRecordFields(Split(content, '\n')[i + 1]);
      CleanRecordFields(records[i]);
    }
  }
}
