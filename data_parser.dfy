/** `parseData`: the client-side reading of the issue listing that prefers
    the stored summary and otherwise computes one, with an empty result
    when anything fails. */
module DataParser {
  import opened Text
  import opened Js
  import opened Dict
  import opened Records
  import opened IssueCharts
  import opened CsvParser

  /** The listing's body after `JSON.parse`: its `data` field (`None` when
      it is not an array) and its `metadata` field (`None` when falsy). */
  datatype ServerBody = ServerBody(data: Option<seq<Issue>>, metadata: Option<StoredMetadata>)

  /** The summary handed on: the stored one, or the one computed here. */
  datatype ClientMetadata = FromServer(stored: StoredMetadata) | Computed(computed: Metadata)

  function LooseUrlCount(issue: Issue): Num {
    LooseCount(issue.urls)
  }

  /** The `totalAffectedUrls` reduce of `parseData`: NaN exactly when some
      URL field is a string without digits. */
  function LooseUrlTotal(data: seq<Issue>): (r: Num)
    ensures r.NaN? <==> exists i :: 0 <= i < |data| && data[i].urls.Str? && DigitsOnly(data[i].urls.s) == []
  {
    NumSum(data, LooseUrlCount)
  }

  lemma LooseUrlTotalNonNegative(data: seq<Issue>)
    ensures LooseUrlTotal(data).Int? ==> LooseUrlTotal(data).value >= 0
  {
    NumSumNonNegative(data, LooseUrlCount);
  }

  /** When every URL field is a string with at least one digit, the two
      parsers compute the same total. */
  lemma LooseAgreesWithStrict(data: seq<Issue>)
    requires forall i :: 0 <= i < |data| ==> data[i].urls.Str? && DigitsOnly(data[i].urls.s) != []
    ensures StrictUrlTotal(data).Some? && LooseUrlTotal(data) == Int(StrictUrlTotal(data).value)
  {
    forall i | 0 <= i < |data| ensures LooseUrlCount(data[i]) == Int(ChartUrlAmount(data[i])) {
      assert StrictCount(data[i].urls) == Some(StrippedCount(data[i].urls.s));
    }
    NumSumTotal(data, LooseUrlCount, CategoryKey, ChartUrlAmount);
    StrictUrlTotalIsChartTotal(data);
  }

  /** A URL field without digits: `parseCSVData` counts it as 0, while
      `parseData` makes the whole total NaN. */
  lemma DigitFreeUrlsDisagree()
    ensures var data := [Issue(Some("x"), Str("Issue"), Str("High"), Str("n/a"))];
            && StrictUrlTotal(data) == Some(0)
            && LooseUrlTotal(data) == NaN
  {
    var data := [Issue(Some("x"), Str("Issue"), Str("High"), Str("n/a"))];
    assert DigitsOnly("n/a") == [];
    assert StrictCount(data[0].urls) == Some(0);
    assert data[..0] == [];
  }

  /** The summary computed when the body carries none. */
  method ComputedMetadata(data: seq<Issue>) returns (m: Metadata)
    ensures m == Metadata(|data|, Tally(TypeEntries(data)), LooseUrlTotal(data))
  {
    var byType := IssuesByType(data);
    m := Metadata(|data|, byType, LooseUrlTotal(data));
  }

  /** `parseData`, after the fetch: `ok` is `response.ok` and `body` the
      parsed text, `None` when `JSON.parse` throws. */
  method ParseData(ok: bool, body: Option<ServerBody>) returns (result: Parsed<ClientMetadata>)
    ensures !ok || body.None? || body.value.data.None? ==> result == Parsed([], Computed(EMPTY_METADATA))
    ensures ok && body.Some? && body.value.data.Some? ==>
              && result.issues == body.value.data.value
              && (body.value.metadata.Some? ==> result.metadata == FromServer(body.value.metadata.value))
              && (body.value.metadata.None? ==>
                    result.metadata == Computed(Metadata(|body.value.data.value|, Tally(TypeEntries(body.value.data.value)),
                                                         LooseUrlTotal(body.value.data.value))))
  {
    if !ok || body.None? || body.value.data.None? {
      return Parsed([], Computed(EMPTY_METADATA));
    }
    var data := body.value.data.value;
    if body.value.metadata.Some? {
      return Parsed(data, FromServer(body.value.metadata.value));
    }
    var computed := ComputedMetadata(data);
    return Parsed(data, Computed(computed));
  }
}
