/**
 * `WorldBankExchangeRateApiService`, the adapter for the World Bank's
 * yearly official-exchange-rate indicator. It fetches one dataset per
 * year and leaves the reading of rates out of it to extraction functions
 * that the repository declares but does not implement, so they are
 * parameters here, as is the provider name the adapter writes with.
 */
module WorldBank {
  import opened Wrappers
  import opened Calendar
  import opened Dtos
  import opened Collections
  import opened Upserts
  import opened Models
  import opened RateRows
  import opened Repository
  import opened AdapterSupport

  const IndicatorCode := "PA.NUS.FCRF"
  const PerPage: nat := 1000

  /** The metadata object `$data[0]` of a response. */
  datatype Metadata = Metadata(pages: Option<int>, lastUpdated: Option<Instant>)

  /** One observation of the indicator: a country, a year and a value that may be null. */
  datatype Observation = Observation(countryIso3: string, date: string, value: Option<real>)

  /** A decoded dataset: the metadata, when `$data[0]` is set, and the observations. */
  datatype Dataset = Dataset(meta: Option<Metadata>, observations: seq<Observation>)

  /**
   * What the adapter depends on and the model does not define: the HTTP
   * client, `fetchAllPages($data, $fetchPage)` for a year, the two
   * extraction functions and `getProviderName()`.
   */
  datatype Sources = Sources(
    http: string -> Result<Dataset>,
    allPages: (Dataset, int) -> Result<Dataset>,
    forCurrency: (Code, Dataset) -> Rates,
    forCurrencies: (seq<Code>, Dataset) -> seq<(Code, Rates)>,
    providerName: string)

  /** `"/country/all/indicator/$indicator?date=$year&format=json&per_page=$perPage"`. */
  function PagePath(year: int): string {
    "/country/all/indicator/" + IndicatorCode + "?date=" + IntToString(year) + "&format=json&per_page=" + NatToString(PerPage)
  }

  /** `isset($data[0]) && ($data[0]['pages'] ?? 1) > 1`. */
  predicate NeedsAllPages(d: Dataset) {
    d.meta.Some? && (if d.meta.value.pages.Some? then d.meta.value.pages.value else 1) > 1
  }

  /** `fetchWorldBankData($year)`: the first page, and all pages when the metadata counts more than one. */
  function YearData(src: Sources, year: int): (r: Result<Dataset>)
    ensures src.http(PagePath(year)).Err? ==> r == src.http(PagePath(year))
    ensures src.http(PagePath(year)).Ok? && !NeedsAllPages(src.http(PagePath(year)).value) ==> r == src.http(PagePath(year))
    ensures src.http(PagePath(year)).Ok? && NeedsAllPages(src.http(PagePath(year)).value) ==>
      r == src.allPages(src.http(PagePath(year)).value, year)
  {
    match src.http(PagePath(year))
    case Err(e) => Err(e)
    case Ok(d) => if NeedsAllPages(d) then src.allPages(d, year) else Ok(d)
  }

  function YearFetcher(src: Sources): int -> Result<Dataset> {
    (year: int) => YearData(src, year)
  }

  /** `$lastUpdated ? Carbon::parse($lastUpdated) : $fallback`, with `$lastUpdated = $data[0]['lastupdated'] ?? null`. */
  function Stamp(d: Dataset, fallback: Instant): (r: Instant)
    ensures d.meta.Some? && d.meta.value.lastUpdated.Some? ==> r == d.meta.value.lastUpdated.value
    ensures d.meta.None? || d.meta.value.lastUpdated.None? ==> r == fallback
  {
    if d.meta.Some? && d.meta.value.lastUpdated.Some? then d.meta.value.lastUpdated.value else fallback
  }

  function Provider(src: Sources): Option<string> {
    Some(src.providerName)
  }

  function YearOf(request: HistoricalBaseCurrencyDto): int {
    request.dateTime.year
  }

  function BaseOfRequest(request: HistoricalBaseCurrencyDto): Code {
    request.base
  }

  /** The DTOs a bulk current store builds from `$multiBaseRates`: one per base, in order. */
  function CurrentDtos(multi: seq<(Code, Rates)>): (r: seq<ExchangeRatesDto>)
    ensures |r| == |multi| && forall i :: 0 <= i < |multi| ==> r[i] == ExchangeRatesDto(multi[i].0, multi[i].1)
  {
    MapSeq(multi, (p: (Code, Rates)) => ExchangeRatesDto(p.0, p.1))
  }

  /** The historical twins of those DTOs, all stamped `stamp`. */
  function StampedDtos(multi: seq<(Code, Rates)>, stamp: Instant): (r: seq<ExchangeRatesDto>)
    ensures |r| == |multi| && forall i :: 0 <= i < |multi| ==> r[i] == HistoricalExchangeRatesDto(multi[i].0, multi[i].1, stamp)
  {
    MapSeq(multi, (p: (Code, Rates)) => HistoricalExchangeRatesDto(p.0, p.1, stamp))
  }

  /**
   * The historical DTOs of the year loop: for each year batch, the rates
   * extracted for the batch's codes from that year's dataset, stamped
   * with its `lastupdated` or else the first of January of that year.
   */
  function YearDtos(src: Sources, batches: seq<Group<int, HistoricalBaseCurrencyDto>>, data: seq<Dataset>): (r: seq<ExchangeRatesDto>)
    requires |batches| == |data|
    ensures AllHistorical(r)
    decreases |batches|
  {
    if batches == [] then []
    else
      var n := |batches| - 1;
      YearDtos(src, batches[..n], data[..n]) + BatchDtos(src, batches[n], data[n])
  }

  /**
   * The DTOs of one year batch: the rates extracted for its codes from its
   * dataset, one DTO per base in order, all stamped with the dataset's
   * `lastupdated` or else 1 January of the batch's year.
   */
  function BatchDtos(src: Sources, batch: Group<int, HistoricalBaseCurrencyDto>, d: Dataset): (r: seq<ExchangeRatesDto>)
    ensures AllHistorical(r)
    ensures forall k :: 0 <= k < |r| ==> r[k].dateTime == Stamp(d, StartOfYear(batch.key))
  {
    StampedDtos(src.forCurrencies(MapSeq(batch.items, BaseOfRequest), d), Stamp(d, StartOfYear(batch.key)))
  }

  // -------------------------------------------------------------- outcomes

  /**
   * `storeExchangeRates($code)`: the current year's dataset; nothing is
   * written and an empty collection returned when it yields no rates for
   * the code; otherwise both tables under the requested code, with the
   * provider name, history stamped `lastupdated` or else now.
   */
  function StoreExchangeRatesOutcome(src: Sources, t: Tables, code: Code, now: Instant)
    : (r: (Tables, Result<seq<ExchangeRate>>))
    ensures r.1.Err? || r.1 == Ok([]) ==> r.0 == t
    ensures YearData(src, now.year).Ok? && src.forCurrency(code, YearData(src, now.year).value) == [] ==> r == (t, Ok([]))
  {
    match YearData(src, now.year)
    case Err(e) => (t, Err(e))
    case Ok(d) =>
      var rates := src.forCurrency(code, d);
      if rates == [] then (t, Ok([]))
      else CurrentWrite(t, code, rates, Stamp(d, now), Provider(src), now)
  }

  /**
   * `storeHistoricalExchangeRates($code, $dateTime)`: the dataset of that
   * year; only history is written, stamped `lastupdated` or else `dateTime`.
   */
  function StoreHistoricalOutcome(src: Sources, t: Tables, code: Code, dateTime: Instant, now: Instant)
    : (r: (Tables, Result<seq<RateHistory>>))
    ensures r.0.rates == t.rates
    ensures r.1.Err? || r.1 == Ok([]) ==> r.0 == t
    ensures YearData(src, dateTime.year).Ok? && src.forCurrency(code, YearData(src, dateTime.year).value) == [] ==> r == (t, Ok([]))
  {
    match YearData(src, dateTime.year)
    case Err(e) => (t, Err(e))
    case Ok(d) =>
      var rates := src.forCurrency(code, d);
      if rates == [] then (t, Ok([]))
      else HistoricalWrite(t, code, rates, Stamp(d, dateTime), Provider(src), now)
  }

  /** `storeBulkExchangeRatesForMultipleCurrencies($codes)`: one dataset for all codes, then one bulk write per table. */
  function StoreBulkOutcome(src: Sources, t: Tables, codes: seq<Code>, now: Instant)
    : (r: (Tables, Result<seq<Group<Code, ExchangeRate>>>))
    ensures r.1.Err? ==> r.0.history == t.history
    ensures YearData(src, now.year).Ok? && src.forCurrencies(codes, YearData(src, now.year).value) == [] ==> r == (t, Ok([]))
  {
    match YearData(src, now.year)
    case Err(e) => (t, Err(e))
    case Ok(d) =>
      var multi := src.forCurrencies(codes, d);
      if multi == [] then (t, Ok([]))
      else BulkCurrentWrite(t, CurrentDtos(multi), StampedDtos(multi, Stamp(d, now)), Provider(src), now)
  }

  /**
   * `storeBulkHistoricalExchangeRatesForMultipleCurrencies($requests)`:
   * the requests bucketed by year, one dataset per year, the DTOs of all
   * years in one bulk history write, or no write when there are none.
   */
  function StoreBulkHistoricalOutcome(src: Sources, t: Tables, requests: seq<HistoricalBaseCurrencyDto>, now: Instant)
    : (r: (Tables, Result<seq<Group<Code, Group<string, RateHistory>>>>))
    ensures r.0.rates == t.rates
    ensures r.1.Err? ==> r.0 == t
    ensures (FetchAll(YearFetcher(src), Keys(GroupBy(requests, YearOf))).Ok? &&
             YearDtos(src, GroupBy(requests, YearOf), FetchAll(YearFetcher(src), Keys(GroupBy(requests, YearOf))).value) == [])
            ==> r == (t, Ok([]))
  {
    var batches := GroupBy(requests, YearOf);
    match FetchAll(YearFetcher(src), Keys(batches))
    case Err(e) => (t, Err(e))
    case Ok(data) =>
      var dtos := YearDtos(src, batches, data);
      if dtos == [] then (t, Ok([]))
      else BulkHistoricalWrite(t, dtos, Provider(src), now)
  }

  // ---------------------------------------------------------------- lemmas

  /**
   * The year buckets: one per distinct year in order of first
   * appearance, each holding exactly the requests of that year, in order;
   * these years are the datasets the bulk historical store requests.
   */
  lemma YearBatches(requests: seq<HistoricalBaseCurrencyDto>)
    ensures Keys(GroupBy(requests, YearOf)) == Distinct(MapSeq(requests, YearOf))
    ensures forall i :: 0 <= i < |GroupBy(requests, YearOf)| ==>
      GroupBy(requests, YearOf)[i].items == WithKey(requests, YearOf, GroupBy(requests, YearOf)[i].key)
  {
    GroupByKeys(requests, YearOf);
    GroupByItems(requests, YearOf);
  }

  /** The historical DTOs of the year loop for two runs of batches are those of the first run, then those of the second. */
  lemma {:induction false} YearDtosAppend(src: Sources, b1: seq<Group<int, HistoricalBaseCurrencyDto>>, d1: seq<Dataset>,
                                          b2: seq<Group<int, HistoricalBaseCurrencyDto>>, d2: seq<Dataset>)
    requires |b1| == |d1| && |b2| == |d2|
    ensures YearDtos(src, b1 + b2, d1 + d2) == YearDtos(src, b1, d1) + YearDtos(src, b2, d2)
    decreases |b2|
  {
    if b2 == [] {
      assert b1 + b2 == b1 && d1 + d2 == d1;
    } else {
      var n := |b2| - 1;
      var b, d := b1 + b2, d1 + d2;
      var m := |b| - 1;
      assert b[..m] == b1 + b2[..n] && b[m] == b2[n];
      assert d[..m] == d1 + d2[..n] && d[m] == d2[n];
      calc {
        YearDtos(src, b, d);
        YearDtos(src, b1 + b2[..n], d1 + d2[..n]) + BatchDtos(src, b2[n], d2[n]);
        { YearDtosAppend(src, b1, d1, b2[..n], d2[..n]); }
        YearDtos(src, b1, d1) + YearDtos(src, b2[..n], d2[..n]) + BatchDtos(src, b2[n], d2[n]);
        YearDtos(src, b1, d1) + YearDtos(src, b2, d2);
      }
    }
  }

  /**
   * Block by block: the first batch contributes the rates extracted for
   * its codes from its dataset, all stamped with that dataset's
   * `lastupdated` or 1 January of the batch's year, and the rest follow.
   */
  lemma YearDtosCons(src: Sources, b: Group<int, HistoricalBaseCurrencyDto>, d: Dataset,
                     bs: seq<Group<int, HistoricalBaseCurrencyDto>>, ds: seq<Dataset>)
    requires |bs| == |ds|
    ensures YearDtos(src, [b] + bs, [d] + ds) == BatchDtos(src, b, d) + YearDtos(src, bs, ds)
  {
    assert [b][..0] == [] && [d][..0] == [];
    assert YearDtos(src, [b], [d]) == BatchDtos(src, b, d);
    YearDtosAppend(src, [b], [d], bs, ds);
  }

  /** Every DTO of the year loop carries the stamp of one of the batches' datasets. */
  lemma {:induction false} YearDtosStamps(src: Sources, batches: seq<Group<int, HistoricalBaseCurrencyDto>>, data: seq<Dataset>)
    requires |batches| == |data|
    ensures forall k :: 0 <= k < |YearDtos(src, batches, data)| ==>
      exists i :: 0 <= i < |batches| && YearDtos(src, batches, data)[k].dateTime == Stamp(data[i], StartOfYear(batches[i].key))
    decreases |batches|
  {
    if batches != [] {
      var n := |batches| - 1;
      var front := YearDtos(src, batches[..n], data[..n]);
      var last := BatchDtos(src, batches[n], data[n]);
      YearDtosStamps(src, batches[..n], data[..n]);
      forall k | 0 <= k < |YearDtos(src, batches, data)|
        ensures exists i :: 0 <= i < |batches| && YearDtos(src, batches, data)[k].dateTime == Stamp(data[i], StartOfYear(batches[i].key))
      {
        if k < |front| {
          var i :| 0 <= i < n && front[k].dateTime == Stamp(data[..n][i], StartOfYear(batches[..n][i].key));
          assert YearDtos(src, batches, data)[k] == front[k];
          assert data[..n][i] == data[i] && batches[..n][i] == batches[i];
          assert YearDtos(src, batches, data)[k].dateTime == Stamp(data[i], StartOfYear(batches[i].key));
        } else {
          assert YearDtos(src, batches, data)[k] == last[k - |front|];
          assert YearDtos(src, batches, data)[k].dateTime == Stamp(data[n], StartOfYear(batches[n].key));
        }
      }
    } else {
      assert YearDtos(src, batches, data) == [];
    }
  }

  /** A bulk current store writes both tables or neither. */
  lemma StoreBulkAllOrNothing(src: Sources, t: Tables, codes: seq<Code>, now: Instant)
    ensures StoreBulkOutcome(src, t, codes, now).1.Err? ==> StoreBulkOutcome(src, t, codes, now).0 == t
  {
    match YearData(src, now.year)
    case Err(_) =>
    case Ok(d) =>
      var multi := src.forCurrencies(codes, d);
      BulkCurrentWriteAllOrNothing(t, CurrentDtos(multi), StampedDtos(multi, Stamp(d, now)), Provider(src), now);
  }

  /**
   * Once the year's data is fetched, a current store fails exactly when
   * the extracted rates hold a zero. Otherwise the rows it writes carry
   * the provider name, while the models it returns leave the provider
   * unset; apart from that and the carried rate of the base's own pair,
   * every returned model is the row stored for its pair.
   */
  lemma StoreExchangeRatesProvider(src: Sources, t: Tables, code: Code, now: Instant)
    requires ValidTables(t)
    requires YearData(src, now.year).Ok?
    requires DistinctCodes(src.forCurrency(code, YearData(src, now.year).value))
    ensures var w := StoreExchangeRatesOutcome(src, t, code, now);
      w.1.Ok? <==> NonZeroRates(src.forCurrency(code, YearData(src, now.year).value))
    ensures var w := StoreExchangeRatesOutcome(src, t, code, now);
      w.1.Ok? ==> forall i :: 0 <= i < |w.1.value| ==>
        w.1.value[i].provider == None && w.1.value[i].base == code && w.1.value[i].rate != 0.0
        && Lookup(w.0.rates, PairOf, PairOf(w.1.value[i]))
           == Some(w.1.value[i].(rate := CarriedRate(code, w.1.value[i].target, w.1.value[i].rate), provider := Some(src.providerName)))
  {
    var d := YearData(src, now.year).value;
    var rates := src.forCurrency(code, d);
    if rates != [] {
      CurrentWriteStoresModels(t, code, rates, Stamp(d, now), Provider(src), now);
    }
  }

  // ---------------------------------------------------------------- loops

  /** The loop over `$multiBaseRates` that builds `$dtos` and `$historicalDtos`. */
  method BuildDtos(multi: seq<(Code, Rates)>, stamp: Instant) returns (dtos: seq<ExchangeRatesDto>, historicalDtos: seq<ExchangeRatesDto>)
    ensures dtos == CurrentDtos(multi) && historicalDtos == StampedDtos(multi, stamp)
  {
    dtos, historicalDtos := [], [];
    var i := 0;
    while i < |multi|
      invariant 0 <= i <= |multi|
      invariant |dtos| == i && forall j :: 0 <= j < i ==> dtos[j] == ExchangeRatesDto(multi[j].0, multi[j].1)
      invariant |historicalDtos| == i && forall j :: 0 <= j < i ==> historicalDtos[j] == HistoricalExchangeRatesDto(multi[j].0, multi[j].1, stamp)
    {
      var (base, rates) := multi[i];
      dtos := dtos + [ExchangeRatesDto(base, rates)];
      historicalDtos := historicalDtos + [HistoricalExchangeRatesDto(base, rates, stamp)];
      i := i + 1;
    }
  }

  /** The part of the year loop after each fetch: extract, stamp and append. */
  method BuildYearDtos(src: Sources, batches: seq<Group<int, HistoricalBaseCurrencyDto>>, data: seq<Dataset>)
    returns (historicalDtos: seq<ExchangeRatesDto>)
    requires |batches| == |data|
    ensures historicalDtos == YearDtos(src, batches, data)
  {
    historicalDtos := [];
    var i := 0;
    while i < |batches|
      invariant 0 <= i <= |batches|
      invariant historicalDtos == YearDtos(src, batches[..i], data[..i])
    {
      var stamp := Stamp(data[i], StartOfYear(batches[i].key));
      var codes := MapSeq(batches[i].items, BaseOfRequest);
      var multi := src.forCurrencies(codes, data[i]);
      assert batches[..i + 1][..i] == batches[..i] && data[..i + 1][..i] == data[..i];
      historicalDtos := historicalDtos + StampedDtos(multi, stamp);
      assert StampedDtos(multi, stamp) == BatchDtos(src, batches[i], data[i]);
      i := i + 1;
    }
    assert batches[..i] == batches && data[..i] == data;
  }

  /** The adapter; `sent` lists the first-page paths it requested, in order. */
  class WorldBankExchangeRateApiService {
    const repo: CurrencyExchangeRateRepository
    const src: Sources
    var sent: seq<string>

    constructor (repo: CurrencyExchangeRateRepository, src: Sources)
      ensures this.repo == repo && this.src == src && sent == []
    {
      this.repo := repo;
      this.src := src;
      sent := [];
    }

    /** `fetchWorldBankData($year)`. */
    method FetchWorldBankData(year: int) returns (r: Result<Dataset>)
      modifies this
      ensures sent == old(sent) + [PagePath(year)]
      ensures r == YearData(src, year)
    {
      sent := sent + [PagePath(year)];
      var first := src.http(PagePath(year));
      if first.Err? {
        return Err(first.error);
      }
      if NeedsAllPages(first.value) {
        r := src.allPages(first.value, year);
      } else {
        r := first;
      }
    }

    method StoreExchangeRates(code: Code, now: Instant) returns (r: Result<seq<ExchangeRate>>)
      requires repo.db.Valid()
      modifies this, repo.db
      ensures repo.db.Valid()
      ensures sent == old(sent) + [PagePath(now.year)]
      ensures (TablesOf(repo.db), r) == StoreExchangeRatesOutcome(src, old(TablesOf(repo.db)), code, now)
    {
      var data := FetchWorldBankData(now.year);
      if data.Err? {
        return Err(data.error);
      }
      var rates := src.forCurrency(code, data.value);
      if rates == [] {
        return Ok([]);
      }
      r := StoreCurrent(repo, code, rates, Stamp(data.value, now), Provider(src), now);
    }

    method StoreHistoricalExchangeRates(code: Code, dateTime: Instant, now: Instant) returns (r: Result<seq<RateHistory>>)
      requires repo.db.Valid()
      modifies this, repo.db
      ensures repo.db.Valid()
      ensures sent == old(sent) + [PagePath(dateTime.year)]
      ensures (TablesOf(repo.db), r) == StoreHistoricalOutcome(src, old(TablesOf(repo.db)), code, dateTime, now)
    {
      var data := FetchWorldBankData(dateTime.year);
      if data.Err? {
        return Err(data.error);
      }
      var rates := src.forCurrency(code, data.value);
      if rates == [] {
        return Ok([]);
      }
      r := StoreHistorical(repo, code, rates, Stamp(data.value, dateTime), Provider(src), now);
    }

    method StoreBulkExchangeRatesForMultipleCurrencies(codes: seq<Code>, now: Instant)
      returns (r: Result<seq<Group<Code, ExchangeRate>>>)
      requires repo.db.Valid()
      modifies this, repo.db
      ensures repo.db.Valid()
      ensures sent == old(sent) + [PagePath(now.year)]
      ensures (TablesOf(repo.db), r) == StoreBulkOutcome(src, old(TablesOf(repo.db)), codes, now)
    {
      var data := FetchWorldBankData(now.year);
      if data.Err? {
        return Err(data.error);
      }
      var multi := src.forCurrencies(codes, data.value);
      if multi == [] {
        return Ok([]);
      }
      var dtos, historicalDtos := BuildDtos(multi, Stamp(data.value, now));
      r := StoreBulkCurrent(repo, dtos, historicalDtos, Provider(src), now);
    }

    method StoreBulkHistoricalExchangeRatesForMultipleCurrencies(requests: seq<HistoricalBaseCurrencyDto>, now: Instant)
      returns (r: Result<seq<Group<Code, Group<string, RateHistory>>>>)
      requires repo.db.Valid()
      modifies this, repo.db
      ensures repo.db.Valid()
      ensures sent == old(sent) + MapSeq(Attempted(YearFetcher(src), Keys(GroupBy(requests, YearOf))), PagePath)
      ensures (TablesOf(repo.db), r) == StoreBulkHistoricalOutcome(src, old(TablesOf(repo.db)), requests, now)
    {
      var batches := GroupBy(requests, YearOf);
      var data, years := FetchEach(YearFetcher(src), Keys(batches));
      sent := sent + MapSeq(years, PagePath);
      if data.Err? {
        return Err(data.error);
      }
      var historicalDtos := BuildYearDtos(src, batches, data.value);
      if historicalDtos == [] {
        return Ok([]);
      }
      r := StoreBulkHistorical(repo, historicalDtos, Provider(src), now);
    }

    /** `getExchangeRates($code)`: the repository's answer. */
    function GetExchangeRates(code: Code): (r: seq<ExchangeRate>)
      reads repo.db
      ensures r == repo.GetExchangeRates(code)
    {
      repo.GetExchangeRates(code)
    }

    /** `getAllExchangeRates()`: the repository's answer. */
    function GetAllExchangeRates(): (r: seq<ExchangeRate>)
      reads repo.db
      ensures r == repo.GetAllExchangeRates()
    {
      repo.GetAllExchangeRates()
    }

    /** `getHistoricalExchangeRates($code, $dateTime)`: the repository's answer, with no request on a miss. */
    function GetHistoricalExchangeRates(code: Code, dateTime: Instant): (r: seq<RateHistory>)
      reads repo.db
      ensures r == repo.GetHistoricalExchangeRates(code, dateTime)
    {
      repo.GetHistoricalExchangeRates(code, dateTime)
    }

    /** `getHistoricalExchangeRate($code, $target, $dateTime)`: the repository's answer, not-found included. */
    function GetHistoricalExchangeRate(code: Code, target: Code, dateTime: Instant): (r: Result<RateHistory>)
      reads repo.db
      ensures r == repo.GetHistoricalExchangeRate(code, target, dateTime)
    {
      repo.GetHistoricalExchangeRate(code, target, dateTime)
    }
  }
}
