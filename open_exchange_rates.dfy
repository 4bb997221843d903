/**
 * `OpenExchangeRateService`, the adapter for Open Exchange Rates. Every
 * store method requests `/latest.json?base=CODE` or
 * `/historical/YYYY-MM-DD.json?base=CODE` and writes through the
 * repository without a provider name.
 */
module OpenExchangeRates {
  import opened Wrappers
  import opened Calendar
  import opened Dtos
  import opened Collections
  import opened Models
  import opened Repository
  import opened AdapterSupport

  /** The fields of a decoded response the adapter reads. */
  datatype Response = Response(base: Code, rates: Rates, timestamp: int)

  function LatestPath(code: Code): string {
    "/latest.json?base=" + code
  }

  /** `"/historical/$year-$month-$day.json?base=$code"` with `format('Y')`, `format('m')` and `format('d')`: zero-padded. */
  function HistoryPath(code: Code, dateTime: Instant): string {
    "/historical/" + FormatDate(DateOf(dateTime)) + ".json?base=" + code
  }

  function RequestPath(request: HistoricalBaseCurrencyDto): string {
    HistoryPath(request.base, request.dateTime)
  }

  /** A request for 5 January 2024: month and day are padded to two digits. */
  lemma HistoryPathSample()
    ensures HistoryPath("USD", Instant(2024, 1, 5, 43200)) == "/historical/2024-01-05.json?base=USD"
  {
  }

  function LatestDto(response: Response): ExchangeRatesDto {
    ExchangeRatesDto(response.base, response.rates)
  }

  /** The historical DTO of a response, stamped `Carbon::createFromTimestamp(timestamp)`. */
  function StampedDto(response: Response): ExchangeRatesDto {
    HistoricalExchangeRatesDto(response.base, response.rates, FromUnix(response.timestamp))
  }

  // -------------------------------------------------------------- outcomes

  /** `storeExchangeRates($code)`: both tables under the response's base, history stamped with its `timestamp`. */
  function StoreExchangeRatesOutcome(http: string -> Result<Response>, t: Tables, code: Code, now: Instant)
    : (r: (Tables, Result<seq<ExchangeRate>>))
    ensures r.1.Err? ==> r.0 == t
  {
    match http(LatestPath(code))
    case Err(e) => (t, Err(e))
    case Ok(v) => CurrentWrite(t, v.base, v.rates, FromUnix(v.timestamp), None, now)
  }

  /** `storeBulkExchangeRatesForMultipleCurrencies($codes)`: one request per code, then one bulk write per table. */
  function StoreBulkOutcome(http: string -> Result<Response>, t: Tables, codes: seq<Code>, now: Instant)
    : (r: (Tables, Result<seq<Group<Code, ExchangeRate>>>))
    ensures r.1.Err? ==> r.0.history == t.history
  {
    match FetchAll(http, MapSeq(codes, LatestPath))
    case Err(e) => (t, Err(e))
    case Ok(responses) => BulkCurrentWrite(t, MapSeq(responses, LatestDto), MapSeq(responses, StampedDto), None, now)
  }

  /** `storeHistoricalExchangeRates($code, $dateTime)`: only history, stamped with the requested `dateTime`. */
  function StoreHistoricalOutcome(http: string -> Result<Response>, t: Tables, code: Code, dateTime: Instant, now: Instant)
    : (r: (Tables, Result<seq<RateHistory>>))
    ensures r.0.rates == t.rates
  {
    match http(HistoryPath(code, dateTime))
    case Err(e) => (t, Err(e))
    case Ok(v) => HistoricalWrite(t, v.base, v.rates, dateTime, None, now)
  }

  /** `storeBulkHistoricalExchangeRatesForMultipleCurrencies($requests)`: each DTO stamped with its response's `timestamp`, not the requested day. */
  function StoreBulkHistoricalOutcome(http: string -> Result<Response>, t: Tables, requests: seq<HistoricalBaseCurrencyDto>, now: Instant)
    : (r: (Tables, Result<seq<Group<Code, Group<string, RateHistory>>>>))
    ensures r.0.rates == t.rates
  {
    match FetchAll(http, MapSeq(requests, RequestPath))
    case Err(e) => (t, Err(e))
    case Ok(responses) => BulkHistoricalWrite(t, MapSeq(responses, StampedDto), None, now)
  }

  /** The current and historical DTO lists of a bulk current store are twins. */
  lemma BulkDtosAreTwins(responses: seq<Response>)
    ensures Twins(MapSeq(responses, LatestDto), MapSeq(responses, StampedDto))
  {
  }

  /**
   * A bulk current store writes both tables or neither: it fails when a
   * request throws or a response carries a zero rate, and then leaves
   * both tables as they were.
   */
  lemma StoreBulkAllOrNothing(http: string -> Result<Response>, t: Tables, codes: seq<Code>, now: Instant)
    ensures StoreBulkOutcome(http, t, codes, now).1.Err? ==> StoreBulkOutcome(http, t, codes, now).0 == t
  {
    var f := FetchAll(http, MapSeq(codes, LatestPath));
    if f.Ok? {
      BulkCurrentWriteAllOrNothing(t, MapSeq(f.value, LatestDto), MapSeq(f.value, StampedDto), None, now);
    }
  }

  // ---------------------------------------------------------------- loops

  /** The loop over the responses that builds `$dtos` and `$historical_dtos`. */
  method BuildDtos(responses: seq<Response>) returns (dtos: seq<ExchangeRatesDto>, historicalDtos: seq<ExchangeRatesDto>)
    ensures dtos == MapSeq(responses, LatestDto) && historicalDtos == MapSeq(responses, StampedDto)
  {
    dtos, historicalDtos := [], [];
    var i := 0;
    while i < |responses|
      invariant 0 <= i <= |responses|
      invariant dtos == MapSeq(responses[..i], LatestDto) && historicalDtos == MapSeq(responses[..i], StampedDto)
    {
      assert responses[..i + 1][..i] == responses[..i];
      dtos := dtos + [LatestDto(responses[i])];
      historicalDtos := historicalDtos + [StampedDto(responses[i])];
      i := i + 1;
    }
    assert responses[..i] == responses;
  }

  /** The loop over the history responses that builds `$historical_dtos`. */
  method BuildStampedDtos(responses: seq<Response>) returns (historicalDtos: seq<ExchangeRatesDto>)
    ensures historicalDtos == MapSeq(responses, StampedDto)
  {
    historicalDtos := [];
    var i := 0;
    while i < |responses|
      invariant 0 <= i <= |responses|
      invariant historicalDtos == MapSeq(responses[..i], StampedDto)
    {
      assert responses[..i + 1][..i] == responses[..i];
      historicalDtos := historicalDtos + [StampedDto(responses[i])];
      i := i + 1;
    }
    assert responses[..i] == responses;
  }

  /**
   * The adapter. `http` answers a request path with the decoded response
   * or the exception the client throws; `sent` lists the paths requested,
   * in order.
   */
  class OpenExchangeRateService {
    const repo: CurrencyExchangeRateRepository
    const http: string -> Result<Response>
    var sent: seq<string>

    constructor (repo: CurrencyExchangeRateRepository, http: string -> Result<Response>)
      ensures this.repo == repo && this.http == http && sent == []
    {
      this.repo := repo;
      this.http := http;
      sent := [];
    }

    method StoreExchangeRates(code: Code, now: Instant) returns (r: Result<seq<ExchangeRate>>)
      requires repo.db.Valid()
      modifies this, repo.db
      ensures repo.db.Valid()
      ensures sent == old(sent) + [LatestPath(code)]
      ensures (TablesOf(repo.db), r) == StoreExchangeRatesOutcome(http, old(TablesOf(repo.db)), code, now)
    {
      sent := sent + [LatestPath(code)];
      var response := http(LatestPath(code));
      if response.Err? {
        return Err(response.error);
      }
      var v := response.value;
      r := StoreCurrent(repo, v.base, v.rates, FromUnix(v.timestamp), None, now);
    }

    method StoreBulkExchangeRatesForMultipleCurrencies(codes: seq<Code>, now: Instant)
      returns (r: Result<seq<Group<Code, ExchangeRate>>>)
      requires repo.db.Valid()
      modifies this, repo.db
      ensures repo.db.Valid()
      ensures sent == old(sent) + Attempted(http, MapSeq(codes, LatestPath))
      ensures (TablesOf(repo.db), r) == StoreBulkOutcome(http, old(TablesOf(repo.db)), codes, now)
    {
      var responses, attempted := FetchEach(http, MapSeq(codes, LatestPath));
      sent := sent + attempted;
      if responses.Err? {
        return Err(responses.error);
      }
      var dtos, historicalDtos := BuildDtos(responses.value);
      r := StoreBulkCurrent(repo, dtos, historicalDtos, None, now);
    }

    method StoreHistoricalExchangeRates(code: Code, dateTime: Instant, now: Instant) returns (r: Result<seq<RateHistory>>)
      requires repo.db.Valid()
      modifies this, repo.db
      ensures repo.db.Valid()
      ensures sent == old(sent) + [HistoryPath(code, dateTime)]
      ensures (TablesOf(repo.db), r) == StoreHistoricalOutcome(http, old(TablesOf(repo.db)), code, dateTime, now)
    {
      sent := sent + [HistoryPath(code, dateTime)];
      var response := http(HistoryPath(code, dateTime));
      if response.Err? {
        return Err(response.error);
      }
      r := StoreHistorical(repo, response.value.base, response.value.rates, dateTime, None, now);
    }

    method StoreBulkHistoricalExchangeRatesForMultipleCurrencies(requests: seq<HistoricalBaseCurrencyDto>, now: Instant)
      returns (r: Result<seq<Group<Code, Group<string, RateHistory>>>>)
      requires repo.db.Valid()
      modifies this, repo.db
      ensures repo.db.Valid()
      ensures sent == old(sent) + Attempted(http, MapSeq(requests, RequestPath))
      ensures (TablesOf(repo.db), r) == StoreBulkHistoricalOutcome(http, old(TablesOf(repo.db)), requests, now)
    {
      var responses, attempted := FetchEach(http, MapSeq(requests, RequestPath));
      sent := sent + attempted;
      if responses.Err? {
        return Err(responses.error);
      }
      var historicalDtos := BuildStampedDtos(responses.value);
      r := StoreBulkHistorical(repo, historicalDtos, None, now);
    }

    /** `getExchangeRates($code)`: the repository's answer. */
    function GetExchangeRates(code: Code): (r: seq<ExchangeRate>)
      reads repo.db
      ensures r == repo.GetExchangeRates(code)
    {
      repo.GetExchangeRates(code)
    }

    /** `getAllExchangeRates()`: the repository's answer. */
    function GetAllExchangeRates(): (r: seq<ExchangeRate>)
      reads repo.db
      ensures r == repo.GetAllExchangeRates()
    {
      repo.GetAllExchangeRates()
    }

    /**
     * `getHistoricalExchangeRates($code, $dateTime)`: the stored rows of
     * that day when there are any, with no request; otherwise the rows a
     * historical store of that day writes and returns.
     */
    method GetHistoricalExchangeRates(code: Code, dateTime: Instant, now: Instant) returns (r: Result<seq<RateHistory>>)
      requires repo.db.Valid()
      modifies this, repo.db
      ensures repo.db.Valid()
      ensures old(repo.GetHistoricalExchangeRates(code, dateTime)) != [] ==>
        r == Ok(old(repo.GetHistoricalExchangeRates(code, dateTime)))
        && sent == old(sent) && TablesOf(repo.db) == old(TablesOf(repo.db))
      ensures old(repo.GetHistoricalExchangeRates(code, dateTime)) == [] ==>
        sent == old(sent) + [HistoryPath(code, dateTime)]
        && (TablesOf(repo.db), r) == StoreHistoricalOutcome(http, old(TablesOf(repo.db)), code, dateTime, now)
    {
      var rows := repo.GetHistoricalExchangeRates(code, dateTime);
      if rows == [] {
        r := StoreHistoricalExchangeRates(code, dateTime, now);
      } else {
        r := Ok(rows);
      }
    }

    /**
     * `getHistoricalExchangeRate($code, $target, $dateTime)`: the stored
     * row when there is one; on the repository's not-found, a historical
     * store of that day and the first returned model with that target.
     */
    method GetHistoricalExchangeRate(code: Code, target: Code, dateTime: Instant, now: Instant) returns (r: Result<RateHistory>)
      requires repo.db.Valid()
      modifies this, repo.db
      ensures repo.db.Valid()
      ensures old(repo.GetHistoricalExchangeRate(code, target, dateTime)).Ok? ==>
        r == old(repo.GetHistoricalExchangeRate(code, target, dateTime))
        && sent == old(sent) && TablesOf(repo.db) == old(TablesOf(repo.db))
      ensures old(repo.GetHistoricalExchangeRate(code, target, dateTime)).Err? ==>
        var w := StoreHistoricalOutcome(http, old(TablesOf(repo.db)), code, dateTime, now);
        sent == old(sent) + [HistoryPath(code, dateTime)] && TablesOf(repo.db) == w.0
        && r == (if w.1.Err? then Err(w.1.error) else FirstWithTarget(w.1.value, target))
    {
      // the repository raises nothing but `ModelNotFoundException`, which is what the adapter catches
      var found := repo.GetHistoricalExchangeRate(code, target, dateTime);
      if found.Ok? {
        return found;
      }
      var stored := StoreHistoricalExchangeRates(code, dateTime, now);
      if stored.Err? {
        return Err(stored.error);
      }
      r := FirstWithTarget(stored.value, target);
    }
  }
}
