/** The `Company` record of company.rs and its construction from the two
    quoteSummary documents the remote service returns for a symbol. */
module Company {
  import opened Wrappers
  import opened JsonValue

  /** The four figures read for one symbol. `freeCash` holds the service's
      `totalCash`. */
  datatype Company = Company(
    name: string,
    marketCap: I64,
    totalDebt: I64,
    freeCash: I64,
    freeCashFlow: I64)

  /** The error variants of company.rs; the causes the two transport variants
      carry (a `reqwest::Error`, a `serde_json::Error`) are not modelled. */
  datatype Error =
    | RequestError
    | ResponseError
    | MarketCapParseError
    | TotalDebtParseError
    | FreeCashParseError
    | FreeCashFlowParseError

  /** What one GET yields: a failed request, a body that does not decode as
      JSON, or a decoded document. */
  datatype Response = TransportError | Undecodable | Document(doc: Json)

  /** The HTTP client, reduced to the response the service gives for a URL. */
  type Client = string -> Response

  const QUOTE_SUMMARY: string := "https://query2.finance.yahoo.com/v6/finance/quoteSummary/"
  const MODULES: string := "?modules="
  const FINANCIAL_DATA: string := "financialData"
  const SUMMARY_DETAIL: string := "summaryDetail"

  /** The request URL for one quoteSummary module of a symbol; the name is
      inserted as it is, without escaping. */
  function QuoteUrl(name: string, section: string): string
  {
    QUOTE_SUMMARY + name + MODULES + section
  }

  /** `other_req`. */
  function FinancialDataUrl(name: string): string
  {
    QuoteUrl(name, FINANCIAL_DATA)
  }

  /** `market_cap_req`. */
  function SummaryDetailUrl(name: string): string
  {
    QuoteUrl(name, SUMMARY_DETAIL)
  }

  /** Both request URLs start with the same text, the name embedded right
      after the fixed endpoint, and they are different URLs. */
  lemma UrlsDifferOnlyInModule(name: string)
    ensures FinancialDataUrl(name)[..|QUOTE_SUMMARY + name + MODULES|] == QUOTE_SUMMARY + name + MODULES
    ensures SummaryDetailUrl(name)[..|QUOTE_SUMMARY + name + MODULES|] == QUOTE_SUMMARY + name + MODULES
    ensures FinancialDataUrl(name)[|QUOTE_SUMMARY + name + MODULES|..] == FINANCIAL_DATA
    ensures SummaryDetailUrl(name)[|QUOTE_SUMMARY + name + MODULES|..] == SUMMARY_DETAIL
    ensures FinancialDataUrl(name) != SummaryDetailUrl(name)
  {
    var head := QUOTE_SUMMARY + name + MODULES;
    assert FinancialDataUrl(name) == head + FINANCIAL_DATA;
    assert SummaryDetailUrl(name) == head + SUMMARY_DETAIL;
    assert FinancialDataUrl(name)[|head|] == 'f' != 's' == SummaryDetailUrl(name)[|head|];
  }

  /** Different symbols are asked for at different URLs. */
  lemma QuoteUrlInjective(a: string, b: string, section: string)
    requires QuoteUrl(a, section) == QuoteUrl(b, section)
    ensures a == b
  {
    var u := QuoteUrl(a, section);
    assert |a| == |b|;
    assert u[|QUOTE_SUMMARY|..|QUOTE_SUMMARY| + |a|] == a;
    assert QuoteUrl(b, section)[|QUOTE_SUMMARY|..|QUOTE_SUMMARY| + |b|] == b;
  }

  /** `["quoteSummary"]["result"][0][section][field]["raw"]`. */
  function RawPath(section: string, field: string): Path
  {
    [Key("quoteSummary"), Key("result"), Index(0), Key(section), Key(field), Key("raw")]
  }

  const MARKET_CAP_PATH: Path := RawPath(SUMMARY_DETAIL, "marketCap")
  const TOTAL_DEBT_PATH: Path := RawPath(FINANCIAL_DATA, "totalDebt")
  const TOTAL_CASH_PATH: Path := RawPath(FINANCIAL_DATA, "totalCash")
  const FREE_CASHFLOW_PATH: Path := RawPath(FINANCIAL_DATA, "freeCashflow")

  /** Lines 53-72 of `from_name_client`: the four fields, each read with
      `as_i64`, the first one missing deciding the error. */
  function FromDocuments(name: string, marketCapJson: Json, otherJson: Json): (r: Result<Company, Error>)
    ensures r.Ok? ==> r.value.name == name
    ensures r.Err? ==> r.error != RequestError && r.error != ResponseError
  {
    match I64At(marketCapJson, MARKET_CAP_PATH)
    case None => Err(MarketCapParseError)
    case Some(marketCap) =>
      match I64At(otherJson, TOTAL_DEBT_PATH)
      case None => Err(TotalDebtParseError)
      case Some(totalDebt) =>
        match I64At(otherJson, TOTAL_CASH_PATH)
        case None => Err(FreeCashParseError)
        case Some(freeCash) =>
          match I64At(otherJson, FREE_CASHFLOW_PATH)
          case None => Err(FreeCashFlowParseError)
          case Some(freeCashFlow) =>
            Ok(Company(name, marketCap, totalDebt, freeCash, freeCashFlow))
  }

  /** `from_name_client`, as written. Both GETs are issued and joined first, so
      a failed request on either side is reported before any body is looked
      at. Decoding a body goes through `reqwest::Response::json`, whose error
      is a `reqwest::Error`: `?` turns it into `RequestError` as well, so
      `ResponseError` is never produced. */
  function FromNameClient(name: string, client: Client): (r: Result<Company, Error>)
    ensures client(SummaryDetailUrl(name)).TransportError? ==> r == Err(RequestError)
    ensures client(FinancialDataUrl(name)).TransportError? ==> r == Err(RequestError)
    ensures r == Err(RequestError) <==>
              !client(SummaryDetailUrl(name)).Document? || !client(FinancialDataUrl(name)).Document?
    ensures r != Err(ResponseError)
    ensures r.Ok? ==> r.value.name == name
  {
    var marketCapResp := client(SummaryDetailUrl(name));
    var otherResp := client(FinancialDataUrl(name));
    if marketCapResp.TransportError? || otherResp.TransportError? then
      Err(RequestError)
    else if marketCapResp.Undecodable? then
      Err(RequestError)
    else if otherResp.Undecodable? then
      Err(RequestError)
    else
      FromDocuments(name, marketCapResp.doc, otherResp.doc)
  }

  /** `from_name_client` as its error type evidently intends: a body that
      does not decode is a `ResponseError`. A failed request still wins over
      a body that does not decode. */
  function FromNameClientCorrected(name: string, client: Client): (r: Result<Company, Error>)
    ensures client(SummaryDetailUrl(name)).TransportError? ==> r == Err(RequestError)
    ensures client(FinancialDataUrl(name)).TransportError? ==> r == Err(RequestError)
    ensures r == Err(ResponseError) <==>
              !client(SummaryDetailUrl(name)).TransportError? && !client(FinancialDataUrl(name)).TransportError? &&
              (client(SummaryDetailUrl(name)).Undecodable? || client(FinancialDataUrl(name)).Undecodable?)
  {
    var marketCapResp := client(SummaryDetailUrl(name));
    var otherResp := client(FinancialDataUrl(name));
    if marketCapResp.TransportError? || otherResp.TransportError? then
      Err(RequestError)
    else if marketCapResp.Undecodable? then
      Err(ResponseError)
    else if otherResp.Undecodable? then
      Err(ResponseError)
    else
      FromDocuments(name, marketCapResp.doc, otherResp.doc)
  }

  /** The two versions differ only in the name of the decode error. */
  lemma CorrectionOnlyRenamesDecodeError(name: string, client: Client)
    ensures FromNameClient(name, client) ==
              if FromNameClientCorrected(name, client) == Err(ResponseError) then Err(RequestError)
              else FromNameClientCorrected(name, client)
  {
  }

  /** A body that does not decode while both requests went through: the code
      reports it as `RequestError`, its error type has `ResponseError` for it. */
  lemma DecodeFailureIsReportedAsRequestError(name: string, client: Client)
    requires client(SummaryDetailUrl(name)) == Undecodable
    requires !client(FinancialDataUrl(name)).TransportError?
    ensures FromNameClient(name, client) == Err(RequestError)
    ensures FromNameClientCorrected(name, client) == Err(ResponseError)
  {
  }

  /** Which of the two documents a field is read from. */
  datatype Source = SummaryDetail | FinancialData

  /** One required field: where it is read and which error its absence gives. */
  datatype FieldSpec = FieldSpec(source: Source, path: Path, error: Error)

  /** The four fields in the order they are checked. */
  const FIELDS: seq<FieldSpec> := [
    FieldSpec(SummaryDetail, MARKET_CAP_PATH, MarketCapParseError),
    FieldSpec(FinancialData, TOTAL_DEBT_PATH, TotalDebtParseError),
    FieldSpec(FinancialData, TOTAL_CASH_PATH, FreeCashParseError),
    FieldSpec(FinancialData, FREE_CASHFLOW_PATH, FreeCashFlowParseError)
  ]

  function ReadField(f: FieldSpec, marketCapJson: Json, otherJson: Json): Option<I64>
  {
    I64At(if f.source == SummaryDetail then marketCapJson else otherJson, f.path)
  }

  /** The first field, from position `from` on in table order, that is
      missing or not an i64. */
  function FirstMissing(marketCapJson: Json, otherJson: Json, from: nat): (r: Option<nat>)
    requires from <= |FIELDS|
    ensures r.Some? ==> from <= r.value < |FIELDS| && ReadField(FIELDS[r.value], marketCapJson, otherJson).None?
    ensures forall i :: from <= i < |FIELDS| && (r.None? || i < r.value) ==>
              ReadField(FIELDS[i], marketCapJson, otherJson).Some?
    decreases |FIELDS| - from
  {
    if from == |FIELDS| then None
    else if ReadField(FIELDS[from], marketCapJson, otherJson).None? then Some(from)
    else FirstMissing(marketCapJson, otherJson, from + 1)
  }

  /** The field extraction follows the table: it fails with the error of the
      first field, in table order, that is missing or not an i64, and
      otherwise copies the four values, negative ones included, verbatim. */
  lemma FromDocumentsFollowsFieldOrder(name: string, marketCapJson: Json, otherJson: Json)
    ensures FromDocuments(name, marketCapJson, otherJson) ==
      match FirstMissing(marketCapJson, otherJson, 0)
      case Some(k) => Err(FIELDS[k].error)
      case None => Ok(Company(name,
                              ReadField(FIELDS[0], marketCapJson, otherJson).value,
                              ReadField(FIELDS[1], marketCapJson, otherJson).value,
                              ReadField(FIELDS[2], marketCapJson, otherJson).value,
                              ReadField(FIELDS[3], marketCapJson, otherJson).value))
  {
    FieldsReadTheirPaths(marketCapJson, otherJson);
  }

  /** Each entry of `FIELDS` reads the path `FromDocuments` reads. */
  lemma FieldsReadTheirPaths(marketCapJson: Json, otherJson: Json)
    ensures ReadField(FIELDS[0], marketCapJson, otherJson) == I64At(marketCapJson, MARKET_CAP_PATH)
    ensures ReadField(FIELDS[1], marketCapJson, otherJson) == I64At(otherJson, TOTAL_DEBT_PATH)
    ensures ReadField(FIELDS[2], marketCapJson, otherJson) == I64At(otherJson, TOTAL_CASH_PATH)
    ensures ReadField(FIELDS[3], marketCapJson, otherJson) == I64At(otherJson, FREE_CASHFLOW_PATH)
  {
  }

  /** `marketCap` is read only from the summaryDetail document, the other
      three only from the financialData document, each at its own path:
      documents that agree there give the same result. */
  lemma FromDocumentsReadsOnlyItsPaths(name: string, mc1: Json, other1: Json, mc2: Json, other2: Json)
    requires I64At(mc1, MARKET_CAP_PATH) == I64At(mc2, MARKET_CAP_PATH)
    requires I64At(other1, TOTAL_DEBT_PATH) == I64At(other2, TOTAL_DEBT_PATH)
    requires I64At(other1, TOTAL_CASH_PATH) == I64At(other2, TOTAL_CASH_PATH)
    requires I64At(other1, FREE_CASHFLOW_PATH) == I64At(other2, FREE_CASHFLOW_PATH)
    ensures FromDocuments(name, mc1, other1) == FromDocuments(name, mc2, other2)
  {
  }

  /** A market-cap path that breaks off at any step gives
      `MarketCapParseError`, never a crash; the other three fields behave
      alike once the fields before them are there. */
  lemma MissingMarketCapStep(name: string, marketCapJson: Json, otherJson: Json)
    requires !Resolves(marketCapJson, MARKET_CAP_PATH)
    ensures FromDocuments(name, marketCapJson, otherJson) == Err(MarketCapParseError)
  {
    MissingStepIsNull(marketCapJson, MARKET_CAP_PATH);
  }

  /** The `{"raw": v}` object the service uses for a figure. */
  function RawValue(v: I64): Json
  {
    Object(map["raw" := Num(if v < 0 then NegInt(v) else PosInt(v as U64))])
  }

  /** `{"quoteSummary": {"result": [{section: fields}]}}`. */
  function QuoteSummaryDocument(section: string, fields: map<string, Json>): Json
  {
    Object(map["quoteSummary" := Object(map["result" := Array([Object(map[section := Object(fields)])])])])
  }

  function SummaryDetailDocument(c: Company): Json
  {
    QuoteSummaryDocument(SUMMARY_DETAIL, map["marketCap" := RawValue(c.marketCap)])
  }

  function FinancialDataDocument(c: Company): Json
  {
    QuoteSummaryDocument(FINANCIAL_DATA, map[
      "totalDebt" := RawValue(c.totalDebt),
      "totalCash" := RawValue(c.freeCash),
      "freeCashflow" := RawValue(c.freeCashFlow)])
  }

  /** A service that answers the two requests for `c.name` with documents
      holding the figures of `c`, and fails every other request. */
  function Serving(c: Company): Client
  {
    url =>
      if url == SummaryDetailUrl(c.name) then Document(SummaryDetailDocument(c))
      else if url == FinancialDataUrl(c.name) then Document(FinancialDataDocument(c))
      else TransportError
  }

  lemma {:induction false} RawFieldAt(section: string, fields: map<string, Json>, field: string)
    requires field in fields
    ensures At(QuoteSummaryDocument(section, fields), RawPath(section, field)) == At(fields[field], [Key("raw")])
  {
    var p := RawPath(section, field);
    var doc := QuoteSummaryDocument(section, fields);
    assert p[1..][1..][1..][1..][1..] == [Key("raw")];
    calc {
      At(doc, p);
      At(Get(doc, p[0]), p[1..]);
      At(Object(map["result" := Array([Object(map[section := Object(fields)])])]), p[1..]);
      At(Array([Object(map[section := Object(fields)])]), p[1..][1..]);
      At(Object(map[section := Object(fields)]), p[1..][1..][1..]);
      At(Object(fields), p[1..][1..][1..][1..]);
      At(fields[field], [Key("raw")]);
    }
  }

  lemma RawValueReads(v: I64)
    ensures I64At(RawValue(v), [Key("raw")]) == Some(v)
  {
    assert [Key("raw")][1..] == [];
  }

  /** A figure stored under `field` in a service document reads back. */
  lemma RawFieldReads(section: string, fields: map<string, Json>, field: string, v: I64)
    requires field in fields && fields[field] == RawValue(v)
    ensures I64At(QuoteSummaryDocument(section, fields), RawPath(section, field)) == Some(v)
  {
    RawFieldAt(section, fields, field);
    RawValueReads(v);
  }

  /** Documents that hold the four figures of `c` read back as `c`. */
  lemma FromDocumentsReadsFigures(c: Company, marketCapJson: Json, otherJson: Json)
    requires I64At(marketCapJson, MARKET_CAP_PATH) == Some(c.marketCap)
    requires I64At(otherJson, TOTAL_DEBT_PATH) == Some(c.totalDebt)
    requires I64At(otherJson, TOTAL_CASH_PATH) == Some(c.freeCash)
    requires I64At(otherJson, FREE_CASHFLOW_PATH) == Some(c.freeCashFlow)
    ensures FromDocuments(c.name, marketCapJson, otherJson) == Ok(c)
  {
  }

  /** The financialData document of `c` holds its three figures. */
  lemma FinancialDataDocumentReads(c: Company)
    ensures I64At(FinancialDataDocument(c), TOTAL_DEBT_PATH) == Some(c.totalDebt)
    ensures I64At(FinancialDataDocument(c), TOTAL_CASH_PATH) == Some(c.freeCash)
    ensures I64At(FinancialDataDocument(c), FREE_CASHFLOW_PATH) == Some(c.freeCashFlow)
  {
    var fields := map["totalDebt" := RawValue(c.totalDebt), "totalCash" := RawValue(c.freeCash),
                      "freeCashflow" := RawValue(c.freeCashFlow)];
    assert FinancialDataDocument(c) == QuoteSummaryDocument(FINANCIAL_DATA, fields);
    RawFieldReads(FINANCIAL_DATA, fields, "totalDebt", c.totalDebt);
    RawFieldReads(FINANCIAL_DATA, fields, "totalCash", c.freeCash);
    RawFieldReads(FINANCIAL_DATA, fields, "freeCashflow", c.freeCashFlow);
  }

  /** Round trip: a service whose documents hold the figures of `c` yields
      exactly `c`. */
  lemma FromNameClientRoundTrip(c: Company)
    ensures FromNameClient(c.name, Serving(c)) == Ok(c)
  {
    UrlsDifferOnlyInModule(c.name);
    RawFieldReads(SUMMARY_DETAIL, map["marketCap" := RawValue(c.marketCap)], "marketCap", c.marketCap);
    FinancialDataDocumentReads(c);
    FromDocumentsReadsFigures(c, SummaryDetailDocument(c), FinancialDataDocument(c));
  }
}
