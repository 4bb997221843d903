/**
 * The two Eloquent models, `CurrencyExchangeRate` (table
 * `currency_exchange_rates`, unique on base and target) and
 * `CurrencyExchangeRateHistory` (table `currency_exchange_rates_history`,
 * unique on base, target and `date_time`), the database that holds both
 * tables, and the models' static `constructFrom*Dto` and `createOrUpdate`.
 */
module Models {
  import opened Wrappers
  import opened Calendar
  import opened Dtos
  import opened Upserts

  /** A `currency_exchange_rates` row or an unsaved `CurrencyExchangeRate` model. */
  datatype ExchangeRate = ExchangeRate(
    base: Code,
    target: Code,
    rate: real,
    provider: Option<string>,
    lastUpdate: Instant)

  /** A `currency_exchange_rates_history` row or an unsaved `CurrencyExchangeRateHistory` model. */
  datatype RateHistory = RateHistory(
    base: Code,
    target: Code,
    rate: real,
    provider: Option<string>,
    dateTime: Instant,
    lastUpdate: Instant)

  /** The unique key of `currency_exchange_rates`. */
  function PairOf(r: ExchangeRate): (Code, Code) {
    (r.base, r.target)
  }

  /** The unique key of `currency_exchange_rates_history`. */
  function HistoryKeyOf(h: RateHistory): (Code, Code, Instant) {
    (h.base, h.target, h.dateTime)
  }

  /** Message of `ModelNotFoundException` raised by `firstOrFail()` on a query of `model`. */
  function NotFoundMessage(model: string): string {
    "No query results for model [" + model + "]."
  }

  const RateModelClass := "BrightCreations\\ExchangeRates\\Models\\CurrencyExchangeRate"
  const HistoryModelClass := "BrightCreations\\ExchangeRates\\Models\\CurrencyExchangeRateHistory"

  // ------------------------------------------------------ constructFrom*Dto

  /**
   * The models `constructFromExchangeRatesDto` builds: one per rate entry,
   * in entry order, carrying the DTO's base and the one `now`, no provider.
   */
  function RateModels(base: Code, rates: Rates, now: Instant): (r: seq<ExchangeRate>)
    ensures |r| == |rates|
    ensures forall i :: 0 <= i < |rates| ==>
      r[i] == ExchangeRate(base, rates[i].0, rates[i].1, None, now)
    decreases |rates|
  {
    if rates == [] then []
    else RateModels(base, rates[..|rates| - 1], now) + [ExchangeRate(base, rates[|rates| - 1].0, rates[|rates| - 1].1, None, now)]
  }

  /**
   * The models `constructFromHistoricalExchangeRatesDto` builds: one per
   * rate entry, in entry order, with the DTO's base and `date_time`.
   */
  function HistoryModels(base: Code, rates: Rates, dateTime: Instant, now: Instant): (r: seq<RateHistory>)
    ensures |r| == |rates|
    ensures forall i :: 0 <= i < |rates| ==>
      r[i] == RateHistory(base, rates[i].0, rates[i].1, None, dateTime, now)
    decreases |rates|
  {
    if rates == [] then []
    else
      var last := rates[|rates| - 1];
      HistoryModels(base, rates[..|rates| - 1], dateTime, now) + [RateHistory(base, last.0, last.1, None, dateTime, now)]
  }

  /** `CurrencyExchangeRate::constructFromExchangeRatesDto($dto)`, with `Carbon::now()` as `now`. */
  method ConstructFromExchangeRatesDto(dto: ExchangeRatesDto, now: Instant) returns (data: seq<ExchangeRate>)
    ensures data == RateModels(dto.base, dto.rates, now)
  {
    data := [];
    var i := 0;
    while i < |dto.rates|
      invariant 0 <= i <= |dto.rates|
      invariant data == RateModels(dto.base, dto.rates[..i], now)
    {
      var (code, rate) := dto.rates[i];
      assert dto.rates[..i + 1][..i] == dto.rates[..i];
      data := data + [ExchangeRate(dto.base, code, rate, None, now)];
      i := i + 1;
    }
    assert dto.rates[..i] == dto.rates;
  }

  /**
   * `CurrencyExchangeRateHistory::constructFromHistoricalExchangeRatesDto($dto)`;
   * the parameter's type declaration admits only the historical DTO.
   */
  method ConstructFromHistoricalExchangeRatesDto(dto: ExchangeRatesDto, now: Instant) returns (data: seq<RateHistory>)
    requires dto.HistoricalExchangeRatesDto?
    ensures data == HistoryModels(dto.base, dto.rates, dto.dateTime, now)
  {
    data := [];
    var i := 0;
    while i < |dto.rates|
      invariant 0 <= i <= |dto.rates|
      invariant data == HistoryModels(dto.base, dto.rates[..i], dto.dateTime, now)
    {
      var (code, rate) := dto.rates[i];
      assert dto.rates[..i + 1][..i] == dto.rates[..i];
      data := data + [RateHistory(dto.base, code, rate, None, dto.dateTime, now)];
      i := i + 1;
    }
    assert dto.rates[..i] == dto.rates;
  }

  /** The table of current rates as `createOrUpdate` leaves it: `attrs` replaces the row of its pair or is appended. */
  function RatesAfterCreateOrUpdate(t: seq<ExchangeRate>, attrs: ExchangeRate): (r: seq<ExchangeRate>)
    ensures Lookup(t, PairOf, PairOf(attrs)).Some? ==> |r| == |t|
    ensures Lookup(t, PairOf, PairOf(attrs)).None? ==> r == t + [attrs]
  {
    match IndexOfKey(t, PairOf, PairOf(attrs))
    case Some(i) => t[i := attrs]
    case None => t + [attrs]
  }

  /** Creating or updating a current rate keeps the table unique and touches no other pair. */
  lemma RatesAfterCreateOrUpdateFacts(t: seq<ExchangeRate>, attrs: ExchangeRate)
    requires UniqueKeys(t, PairOf)
    ensures UniqueKeys(RatesAfterCreateOrUpdate(t, attrs), PairOf)
    ensures forall k :: Lookup(RatesAfterCreateOrUpdate(t, attrs), PairOf, k) ==
                       if k == PairOf(attrs) then Some(attrs) else Lookup(t, PairOf, k)
    ensures forall i :: 0 <= i < |t| && PairOf(t[i]) != PairOf(attrs) ==> RatesAfterCreateOrUpdate(t, attrs)[i] == t[i]
  {
    assert RatesAfterCreateOrUpdate(t, attrs) == UpsertOne(t, PairOf, attrs);
    UpsertOneFacts(t, PairOf, attrs);
  }

  /**
   * The columns of `currency_exchange_rates_history`: those its create
   * migration makes, and `provider`, which a later migration adds.
   */
  const HistoryColumns: set<string> :=
    {"id", "base_currency_code", "target_currency_code", "exchange_rate", "provider", "date_time", "last_update_date"}

  /** The columns history `createOrUpdate` filters on, in the order of its `where`. */
  const HistoryLookupColumns: seq<string> :=
    ["base_currency_code", "target_currency_code", "last_update_timestamp", "next_update_timestamp"]

  /** The first filter column a table does not have: a `where` on it makes the whole query fail. */
  function MissingColumn(columns: set<string>, filters: seq<string>): (r: Option<string>)
    ensures r.None? <==> forall i :: 0 <= i < |filters| ==> filters[i] in columns
    ensures r.Some? ==> r.value in filters && r.value !in columns
    decreases |filters|
  {
    if filters == [] then None
    else if filters[0] !in columns then Some(filters[0])
    else
      var rest := MissingColumn(columns, filters[1..]);
      assert forall i :: 1 <= i < |filters| ==> filters[i] == filters[1..][i - 1];
      rest
  }

  /** The `QueryException` a query on a column the table does not have raises (SQLite's wording). */
  function NoSuchColumnError(column: string): Exception {
    Exception(Query, "no such column: " + column)
  }

  /**
   * History `createOrUpdate` looks a record up by two columns the history
   * table does not have, so its query fails whatever the attributes are.
   */
  lemma HistoryLookupHasMissingColumn()
    ensures MissingColumn(HistoryColumns, HistoryLookupColumns) == Some("last_update_timestamp")
  {
    assert HistoryLookupColumns[1..][1..] == ["last_update_timestamp", "next_update_timestamp"];
  }

  /**
   * The database behind both models. Rows keep their insertion order,
   * which is the order of their ids.
   */
  class Database {
    var rates: seq<ExchangeRate>
    var history: seq<RateHistory>

    ghost predicate Valid()
      reads this
    {
      UniqueKeys(rates, PairOf) && UniqueKeys(history, HistoryKeyOf)
    }

    constructor ()
      ensures Valid() && rates == [] && history == []
    {
      rates := [];
      history := [];
    }

    /** `DB::table('currency_exchange_rates')->upsert($rows, [base, target], [...])`. */
    method UpsertRates(rows: seq<ExchangeRate>)
      requires Valid()
      modifies this
      ensures Valid()
      ensures rates == Upsert(old(rates), PairOf, rows) && history == old(history)
    {
      forall k { UpsertLookup(rates, PairOf, rows, k); }
      rates := Upsert(rates, PairOf, rows);
    }

    /** `DB::table('currency_exchange_rates_history')->upsert($rows, [base, target, date_time], [...])`. */
    method UpsertHistory(rows: seq<RateHistory>)
      requires Valid()
      modifies this
      ensures Valid()
      ensures history == Upsert(old(history), HistoryKeyOf, rows) && rates == old(rates)
    {
      forall k { UpsertLookup(history, HistoryKeyOf, rows, k); }
      history := Upsert(history, HistoryKeyOf, rows);
    }

    /**
     * `CurrencyExchangeRate::createOrUpdate($attributes)`: the row with the
     * same base and target is updated when there is one, else a row is created.
     */
    method CreateOrUpdateRate(attrs: ExchangeRate) returns (record: ExchangeRate)
      requires Valid()
      modifies this
      ensures Valid()
      ensures record == attrs
      ensures rates == RatesAfterCreateOrUpdate(old(rates), attrs) && history == old(history)
    {
      RatesAfterCreateOrUpdateFacts(rates, attrs);
      rates := RatesAfterCreateOrUpdate(rates, attrs);
      record := attrs;
    }

    /**
     * `CurrencyExchangeRateHistory::createOrUpdate($attributes)` as written:
     * the lookup fails on the first column the table lacks, before anything
     * is read or written, whatever the attributes are.
     */
    method CreateOrUpdateHistory(attrs: RateHistory) returns (r: Result<RateHistory>)
      ensures r == Err(NoSuchColumnError("last_update_timestamp"))
    {
      HistoryLookupHasMissingColumn();
      var missing := MissingColumn(HistoryColumns, HistoryLookupColumns);
      r := Err(NoSuchColumnError(missing.value));
    }

    /**
     * History `createOrUpdate` as evidently intended: the row with the
     * same base, target and `date_time` is updated when there is one, else
     * a row is created.
     */
    method CreateOrUpdateHistoryOfDay(attrs: RateHistory) returns (record: RateHistory)
      requires Valid()
      modifies this
      ensures Valid() && record == attrs && rates == old(rates)
      ensures history == UpsertOne(old(history), HistoryKeyOf, attrs)
      ensures forall k :: Lookup(history, HistoryKeyOf, k) ==
                         if k == HistoryKeyOf(attrs) then Some(attrs) else Lookup(old(history), HistoryKeyOf, k)
      ensures forall i :: 0 <= i < |old(history)| && HistoryKeyOf(old(history)[i]) != HistoryKeyOf(attrs) ==>
                         history[i] == old(history)[i]
    {
      UpsertOneFacts(history, HistoryKeyOf, attrs);
      history := UpsertOne(history, HistoryKeyOf, attrs);
      record := attrs;
    }
  }
}
