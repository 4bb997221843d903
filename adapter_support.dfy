/**
 * What the three provider adapters share once a response is in hand:
 * the effect of their repository writes on the two tables, the models
 * they hand back, and the fetch loop of their bulk methods, which stops
 * at the first request that throws.
 */
module AdapterSupport {
  import opened Wrappers
  import opened Calendar
  import opened Dtos
  import opened Collections
  import opened Upserts
  import opened Models
  import opened RateRows
  import opened Repository

  /** The contents of the two tables. */
  datatype Tables = Tables(rates: seq<ExchangeRate>, history: seq<RateHistory>)

  function TablesOf(db: Database): Tables
    reads db
  {
    Tables(db.rates, db.history)
  }

  ghost predicate ValidTables(t: Tables) {
    UniqueKeys(t.rates, PairOf) && UniqueKeys(t.history, HistoryKeyOf)
  }

  // ------------------------------------------------------------- fetching

  /** The position of the first request that throws, if any. */
  function FirstFailure<K, R>(fetch: K -> Result<R>, keys: seq<K>): (k: Option<nat>)
    ensures k.Some? ==>
      k.value < |keys| && fetch(keys[k.value]).Err? && forall i :: 0 <= i < k.value ==> fetch(keys[i]).Ok?
    ensures k.None? ==> forall i :: 0 <= i < |keys| ==> fetch(keys[i]).Ok?
    decreases |keys|
  {
    if keys == [] then None
    else if fetch(keys[0]).Err? then Some(0)
    else match FirstFailure(fetch, keys[1..])
      case None => None
      case Some(i) => Some(i + 1)
  }

  /** The requests a fetch loop sends: all of them, or those up to and including the first that throws. */
  function Attempted<K, R>(fetch: K -> Result<R>, keys: seq<K>): (r: seq<K>)
    ensures FirstFailure(fetch, keys).None? ==> r == keys
    ensures FirstFailure(fetch, keys).Some? ==> r == keys[..FirstFailure(fetch, keys).value + 1]
  {
    match FirstFailure(fetch, keys)
    case Some(k) => keys[..k + 1]
    case None => keys
  }

  /**
   * The responses of one request per key, in key order; the first
   * request that throws ends the loop and its exception propagates.
   */
  function FetchAll<K, R>(fetch: K -> Result<R>, keys: seq<K>): (r: Result<seq<R>>)
    ensures r.Ok? <==> FirstFailure(fetch, keys).None?
    ensures r.Ok? ==> |r.value| == |keys| && forall i :: 0 <= i < |keys| ==> fetch(keys[i]) == Ok(r.value[i])
    ensures r.Err? ==> fetch(keys[FirstFailure(fetch, keys).value]) == Err(r.error)
    decreases |keys|
  {
    if keys == [] then Ok([])
    else match fetch(keys[0])
      case Err(e) => Err(e)
      case Ok(v) =>
        match FetchAll(fetch, keys[1..])
        case Err(e) => Err(e)
        case Ok(vs) => Ok([v] + vs)
  }

  /** `foreach ($keys as $k) { $responses->push($fetch($k)); }`, returning the requests it sent beside the responses. */
  method FetchEach<K, R>(fetch: K -> Result<R>, keys: seq<K>) returns (r: Result<seq<R>>, attempted: seq<K>)
    ensures r == FetchAll(fetch, keys)
    ensures attempted == Attempted(fetch, keys)
  {
    var responses: seq<R> := [];
    var i := 0;
    while i < |keys|
      invariant 0 <= i <= |keys|
      invariant |responses| == i && forall j :: 0 <= j < i ==> fetch(keys[j]) == Ok(responses[j])
    {
      var response := fetch(keys[i]);
      if response.Err? {
        return Err(response.error), keys[..i + 1];
      }
      responses := responses + [response.value];
      i := i + 1;
    }
    var all := FetchAll(fetch, keys);
    assert all.Ok?;
    assert all.value == responses;
    r, attempted := all, keys;
  }

  // ------------------------------------------------------------ the models

  /** The models built from a list of DTOs, flattened: `constructFromExchangeRatesDto` of each in turn. */
  function AllRateModels(dtos: seq<ExchangeRatesDto>, now: Instant): (r: seq<ExchangeRate>)
    decreases |dtos|
  {
    if dtos == [] then []
    else
      var last := dtos[|dtos| - 1];
      AllRateModels(dtos[..|dtos| - 1], now) + RateModels(last.base, last.rates, now)
  }

  /** Every DTO of the list is a `HistoricalExchangeRatesDto`. */
  predicate AllHistorical(dtos: seq<ExchangeRatesDto>) {
    forall i :: 0 <= i < |dtos| ==> dtos[i].HistoricalExchangeRatesDto?
  }

  /** The models built from a list of historical DTOs, flattened. */
  function AllHistoryModels(dtos: seq<ExchangeRatesDto>, now: Instant): (r: seq<RateHistory>)
    requires AllHistorical(dtos)
    decreases |dtos|
  {
    if dtos == [] then []
    else
      var last := dtos[|dtos| - 1];
      AllHistoryModels(dtos[..|dtos| - 1], now) + HistoryModels(last.base, last.rates, last.dateTime, now)
  }

  /** `foreach ($dtos as $dto) { $data->push(CurrencyExchangeRate::constructFromExchangeRatesDto($dto)); }` then `flatten()`. */
  method ConstructAllRateModels(dtos: seq<ExchangeRatesDto>, now: Instant) returns (data: seq<ExchangeRate>)
    ensures data == AllRateModels(dtos, now)
  {
    data := [];
    var i := 0;
    while i < |dtos|
      invariant 0 <= i <= |dtos|
      invariant data == AllRateModels(dtos[..i], now)
    {
      var models := ConstructFromExchangeRatesDto(dtos[i], now);
      assert dtos[..i + 1][..i] == dtos[..i];
      data := data + models;
      i := i + 1;
    }
    assert dtos[..i] == dtos;
  }

  /** The same for `constructFromHistoricalExchangeRatesDto`. */
  method ConstructAllHistoryModels(dtos: seq<ExchangeRatesDto>, now: Instant) returns (data: seq<RateHistory>)
    requires AllHistorical(dtos)
    ensures data == AllHistoryModels(dtos, now)
  {
    data := [];
    var i := 0;
    while i < |dtos|
      invariant 0 <= i <= |dtos|
      invariant AllHistorical(dtos[..i]) && data == AllHistoryModels(dtos[..i], now)
    {
      var models := ConstructFromHistoricalExchangeRatesDto(dtos[i], now);
      assert dtos[..i + 1][..i] == dtos[..i];
      data := data + models;
      i := i + 1;
    }
    assert dtos[..i] == dtos;
  }

  /** `$data->flatten()->groupBy('base_currency_code')`. */
  function GroupRateModels(models: seq<ExchangeRate>): seq<Group<Code, ExchangeRate>> {
    GroupBy(models, BaseOf)
  }

  /** `$data->flatten()->groupBy(['base_currency_code', fn ($item) => $item->date_time->format('Y-m-d')])`. */
  function GroupHistoryModels(models: seq<RateHistory>): seq<Group<Code, Group<string, RateHistory>>> {
    Subgroup(GroupBy(models, HistoryBaseOf), HistoryDayOf)
  }

  // ---------------------------------------------------- the table effects

  /** The DTOs as the untyped list a bulk update receives. */
  function Items(dtos: seq<ExchangeRatesDto>): (r: seq<BulkItem>)
    ensures |r| == |dtos| && forall i :: 0 <= i < |dtos| ==> r[i] == Dto(dtos[i])
  {
    MapSeq(dtos, (d: ExchangeRatesDto) => Dto(d))
  }

  /**
   * `updateExchangeRates($base, $rates, $provider)`, then
   * `updateExchangeRatesHistory($base, $rates, $stamp, $provider)`, then
   * the models of `new ExchangeRatesDto($base, $rates)`.
   */
  function CurrentWrite(t: Tables, base: Code, rates: Rates, stamp: Instant, provider: Option<string>, now: Instant)
    : (r: (Tables, Result<seq<ExchangeRate>>))
    ensures r.1.Err? ==> r.0 == t
  {
    if NonZeroRates(rates) then
      (Tables(Upsert(t.rates, PairOf, CurrentRows(base, rates, provider, now)),
              Upsert(t.history, HistoryKeyOf, HistoryRows(base, rates, stamp, provider, now))),
       Ok(RateModels(base, rates, now)))
    else (t, Err(DivisionByZeroError))
  }

  /**
   * `updateExchangeRatesHistory($base, $rates, $dateTime, $provider)`,
   * then the models of `new HistoricalExchangeRatesDto($base, $rates, $dateTime)`.
   */
  function HistoricalWrite(t: Tables, base: Code, rates: Rates, dateTime: Instant, provider: Option<string>, now: Instant)
    : (r: (Tables, Result<seq<RateHistory>>))
    ensures r.0.rates == t.rates
  {
    if NonZeroRates(rates) then
      (t.(history := Upsert(t.history, HistoryKeyOf, HistoryRows(base, rates, dateTime, provider, now))),
       Ok(HistoryModels(base, rates, dateTime, now)))
    else (t, Err(DivisionByZeroError))
  }

  /**
   * `updateBulkExchangeRates($dtos, $provider)`, then
   * `updateBulkExchangeRatesHistory($historicalDtos, $provider)`, then the
   * models of `$dtos` grouped by base.
   */
  function BulkCurrentWrite(t: Tables, dtos: seq<ExchangeRatesDto>, historicalDtos: seq<ExchangeRatesDto>,
                            provider: Option<string>, now: Instant)
    : (r: (Tables, Result<seq<Group<Code, ExchangeRate>>>))
    ensures r.1.Err? ==> r.0.history == t.history
  {
    match BulkFailure(Items(dtos), false)
    case Some(e) => (t, Err(e))
    case None =>
      var rates := Upsert(t.rates, PairOf, BulkCurrentRows(Items(dtos), provider, now));
      match BulkFailure(Items(historicalDtos), true)
      case Some(e) => (t.(rates := rates), Err(e))
      case None =>
        (Tables(rates, Upsert(t.history, HistoryKeyOf, BulkHistoryRows(Items(historicalDtos), provider, now))),
         Ok(GroupRateModels(AllRateModels(dtos, now))))
  }

  /**
   * `updateBulkExchangeRatesHistory($historicalDtos, $provider)`, then
   * their models grouped by base and then by day.
   */
  function BulkHistoricalWrite(t: Tables, historicalDtos: seq<ExchangeRatesDto>, provider: Option<string>, now: Instant)
    : (r: (Tables, Result<seq<Group<Code, Group<string, RateHistory>>>>))
    ensures r.0.rates == t.rates
    ensures r.1.Err? ==> r.0 == t
  {
    match BulkFailure(Items(historicalDtos), true)
    case Some(e) => (t, Err(e))
    case None =>
      assert AllHistorical(historicalDtos) by {
        forall i | 0 <= i < |historicalDtos| ensures historicalDtos[i].HistoricalExchangeRatesDto? {
          assert Accepts(Items(historicalDtos)[i], true);
        }
      }
      (t.(history := Upsert(t.history, HistoryKeyOf, BulkHistoryRows(Items(historicalDtos), provider, now))),
       Ok(GroupHistoryModels(AllHistoryModels(historicalDtos, now))))
  }

  // ---------------------------------------------- the writes, through the repository

  /** The two single updates and the models, as `storeExchangeRates` runs them. */
  method StoreCurrent(repo: CurrencyExchangeRateRepository, base: Code, rates: Rates, stamp: Instant,
                      provider: Option<string>, now: Instant) returns (r: Result<seq<ExchangeRate>>)
    requires repo.db.Valid()
    modifies repo.db
    ensures repo.db.Valid()
    ensures (TablesOf(repo.db), r) == CurrentWrite(old(TablesOf(repo.db)), base, rates, stamp, provider, now)
  {
    var written := repo.UpdateExchangeRates(base, rates, provider, now);
    if written.Err? {
      return Err(written.error);
    }
    // the rates passed the first update, so the second cannot raise
    written := repo.UpdateExchangeRatesHistory(base, rates, stamp, provider, now);
    var models := ConstructFromExchangeRatesDto(ExchangeRatesDto(base, rates), now);
    r := Ok(models);
  }

  /** The history update and the models, as `storeHistoricalExchangeRates` runs them. */
  method StoreHistorical(repo: CurrencyExchangeRateRepository, base: Code, rates: Rates, dateTime: Instant,
                         provider: Option<string>, now: Instant) returns (r: Result<seq<RateHistory>>)
    requires repo.db.Valid()
    modifies repo.db
    ensures repo.db.Valid()
    ensures (TablesOf(repo.db), r) == HistoricalWrite(old(TablesOf(repo.db)), base, rates, dateTime, provider, now)
  {
    var written := repo.UpdateExchangeRatesHistory(base, rates, dateTime, provider, now);
    if written.Err? {
      return Err(written.error);
    }
    var models := ConstructFromHistoricalExchangeRatesDto(HistoricalExchangeRatesDto(base, rates, dateTime), now);
    r := Ok(models);
  }

  /** The two bulk updates and the grouped models, as the bulk current stores run them. */
  method StoreBulkCurrent(repo: CurrencyExchangeRateRepository, dtos: seq<ExchangeRatesDto>,
                          historicalDtos: seq<ExchangeRatesDto>, provider: Option<string>, now: Instant)
    returns (r: Result<seq<Group<Code, ExchangeRate>>>)
    requires repo.db.Valid()
    modifies repo.db
    ensures repo.db.Valid()
    ensures (TablesOf(repo.db), r) == BulkCurrentWrite(old(TablesOf(repo.db)), dtos, historicalDtos, provider, now)
  {
    var written := repo.UpdateBulkExchangeRates(Items(dtos), provider, now);
    if written.Err? {
      return Err(written.error);
    }
    written := repo.UpdateBulkExchangeRatesHistory(Items(historicalDtos), provider, now);
    if written.Err? {
      return Err(written.error);
    }
    var models := ConstructAllRateModels(dtos, now);
    r := Ok(GroupRateModels(models));
  }

  /** The bulk history update and the grouped models, as the bulk historical stores run them. */
  method StoreBulkHistorical(repo: CurrencyExchangeRateRepository, historicalDtos: seq<ExchangeRatesDto>,
                             provider: Option<string>, now: Instant)
    returns (r: Result<seq<Group<Code, Group<string, RateHistory>>>>)
    requires repo.db.Valid()
    modifies repo.db
    ensures repo.db.Valid()
    ensures (TablesOf(repo.db), r) == BulkHistoricalWrite(old(TablesOf(repo.db)), historicalDtos, provider, now)
  {
    var written := repo.UpdateBulkExchangeRatesHistory(Items(historicalDtos), provider, now);
    if written.Err? {
      return Err(written.error);
    }
    assert AllHistorical(historicalDtos) by {
      forall i | 0 <= i < |historicalDtos| ensures historicalDtos[i].HistoricalExchangeRatesDto? {
        assert Accepts(Items(historicalDtos)[i], true);
      }
    }
    var models := ConstructAllHistoryModels(historicalDtos, now);
    r := Ok(GroupHistoryModels(models));
  }

  /** `Illuminate\Support\ItemNotFoundException`, thrown by `firstOrFail()` on a collection with no match. */
  const ItemNotFoundError := Exception(ItemNotFound, "")

  /** `$models->where('target_currency_code', $target)->firstOrFail()`. */
  function FirstWithTarget(models: seq<RateHistory>, target: Code): (r: Result<RateHistory>)
    ensures r.Ok? ==>
      exists i :: 0 <= i < |models| && models[i] == r.value && r.value.target == target
        && forall j :: 0 <= j < i ==> models[j].target != target
    ensures r.Err? <==> forall i :: 0 <= i < |models| ==> models[i].target != target
    ensures r.Err? ==> r.error == ItemNotFoundError
  {
    match IndexOfKey(models, HistoryTargetOf, target)
    case Some(i) => Ok(models[i])
    case None => Err(ItemNotFoundError)
  }

  // -------------------------------------------------------------- lemmas

  /**
   * A current store fails exactly on a zero rate, with both tables as they
   * were. Otherwise it keeps both tables unique, and every model it returns
   * is, up to the provider the model leaves unset and the carried rate of
   * the base's own pair, the row now stored for its pair and the history
   * row at `stamp`.
   */
  lemma CurrentWriteStoresModels(t: Tables, base: Code, rates: Rates, stamp: Instant, provider: Option<string>, now: Instant)
    requires ValidTables(t) && DistinctCodes(rates)
    ensures var w := CurrentWrite(t, base, rates, stamp, provider, now);
      (w.1.Ok? <==> NonZeroRates(rates)) && (w.1.Err? ==> w.1.error == DivisionByZeroError && w.0 == t)
    ensures var w := CurrentWrite(t, base, rates, stamp, provider, now);
      w.1.Ok? ==> ValidTables(w.0) && |w.1.value| == |rates|
    ensures var w := CurrentWrite(t, base, rates, stamp, provider, now);
      w.1.Ok? ==> forall i :: 0 <= i < |w.1.value| ==>
        w.1.value[i].rate != 0.0
        && Lookup(w.0.rates, PairOf, PairOf(w.1.value[i]))
           == Some(w.1.value[i].(rate := CarriedRate(base, w.1.value[i].target, w.1.value[i].rate), provider := provider))
        && Lookup(w.0.history, HistoryKeyOf, (w.1.value[i].base, w.1.value[i].target, stamp))
           == Some(RateHistory(w.1.value[i].base, w.1.value[i].target, CarriedRate(base, w.1.value[i].target, w.1.value[i].rate),
                               provider, stamp, now))
  {
    if NonZeroRates(rates) {
      UpdatedForwardRates(t.rates, base, rates, provider, now);
      UpdatedForwardHistory(t.history, base, rates, stamp, provider, now);
    }
  }

  /**
   * A historical store leaves the current table alone and fails exactly
   * on a zero rate. Otherwise every model it returns is, up to the
   * provider and the carried rate of the base's own pair, the history row
   * now stored under its base, target and `dateTime`.
   */
  lemma HistoricalWriteStoresModels(t: Tables, base: Code, rates: Rates, dateTime: Instant, provider: Option<string>, now: Instant)
    requires ValidTables(t) && DistinctCodes(rates)
    ensures var w := HistoricalWrite(t, base, rates, dateTime, provider, now);
      (w.1.Ok? <==> NonZeroRates(rates)) && (w.1.Err? ==> w.1.error == DivisionByZeroError && w.0 == t)
    ensures var w := HistoricalWrite(t, base, rates, dateTime, provider, now);
      w.1.Ok? ==> ValidTables(w.0) && w.0.rates == t.rates && |w.1.value| == |rates|
    ensures var w := HistoricalWrite(t, base, rates, dateTime, provider, now);
      w.1.Ok? ==> forall i :: 0 <= i < |w.1.value| ==>
        w.1.value[i].rate != 0.0
        && Lookup(w.0.history, HistoryKeyOf, HistoryKeyOf(w.1.value[i]))
           == Some(w.1.value[i].(rate := CarriedRate(base, w.1.value[i].target, w.1.value[i].rate), provider := provider))
  {
    if NonZeroRates(rates) {
      UpdatedForwardHistory(t.history, base, rates, dateTime, provider, now);
    }
  }

  /** The historical list is the current list, each DTO restamped with a date of its own. */
  predicate Twins(dtos: seq<ExchangeRatesDto>, historicalDtos: seq<ExchangeRatesDto>) {
    |dtos| == |historicalDtos|
    && forall i :: 0 <= i < |dtos| ==>
      historicalDtos[i].HistoricalExchangeRatesDto?
      && historicalDtos[i].base == dtos[i].base && historicalDtos[i].rates == dtos[i].rates
  }

  /** No DTO of the list carries a zero rate. */
  predicate AllNonZero(dtos: seq<ExchangeRatesDto>) {
    forall i :: 0 <= i < |dtos| ==> NonZeroRates(dtos[i].rates)
  }

  /**
   * A bulk current store given twin lists writes both tables or neither:
   * it fails exactly when some DTO carries a zero rate, and then with the
   * division error and both tables as they were.
   */
  lemma BulkCurrentWriteAllOrNothing(t: Tables, dtos: seq<ExchangeRatesDto>, historicalDtos: seq<ExchangeRatesDto>,
                                     provider: Option<string>, now: Instant)
    requires Twins(dtos, historicalDtos)
    ensures var w := BulkCurrentWrite(t, dtos, historicalDtos, provider, now);
      (w.1.Err? <==> !AllNonZero(dtos)) && (w.1.Err? ==> w.1.error == DivisionByZeroError && w.0 == t)
  {
    var items, hitems := Items(dtos), Items(historicalDtos);
    assert AllWritable(items, false) <==> AllNonZero(dtos) by {
      forall i | 0 <= i < |dtos| ensures Accepts(items[i], false) && items[i].dto == dtos[i] {}
    }
    assert AllWritable(hitems, true) <==> AllNonZero(dtos) by {
      forall i | 0 <= i < |dtos| ensures Accepts(hitems[i], true) && hitems[i].dto.rates == dtos[i].rates {}
    }
    if !AllNonZero(dtos) {
      var i :| 0 <= i < |dtos| && !NonZeroRates(dtos[i].rates);
      BulkFailureIsDivision(items, false);
    }
  }

  /** When every element is an accepted DTO, the only failure left is a zero rate. */
  lemma {:induction false} BulkFailureIsDivision(items: seq<BulkItem>, historical: bool)
    requires forall i :: 0 <= i < |items| ==> Accepts(items[i], historical)
    ensures BulkFailure(items, historical).Some? ==> BulkFailure(items, historical).value == DivisionByZeroError
    decreases |items|
  {
    if items != [] && Accepts(items[0], historical) && NonZeroRates(items[0].dto.rates) {
      assert forall i :: 0 <= i < |items[1..]| ==> items[1..][i] == items[i + 1];
      BulkFailureIsDivision(items[1..], historical);
    }
  }

  /**
   * The models a bulk current store returns are grouped by base: one
   * group per distinct base in order of first appearance, each holding
   * exactly the models with that base, in order.
   */
  lemma BulkCurrentWriteGroups(t: Tables, dtos: seq<ExchangeRatesDto>, historicalDtos: seq<ExchangeRatesDto>,
                               provider: Option<string>, now: Instant)
    requires BulkCurrentWrite(t, dtos, historicalDtos, provider, now).1.Ok?
    ensures var g := BulkCurrentWrite(t, dtos, historicalDtos, provider, now).1.value;
      Keys(g) == Distinct(MapSeq(AllRateModels(dtos, now), BaseOf)) && NoDuplicates(Keys(g))
    ensures var g := BulkCurrentWrite(t, dtos, historicalDtos, provider, now).1.value;
      forall i :: 0 <= i < |g| ==> g[i].items == WithKey(AllRateModels(dtos, now), BaseOf, g[i].key)
  {
    var models := AllRateModels(dtos, now);
    BulkCurrentWriteValue(t, dtos, historicalDtos, provider, now);
    GroupByKeys(models, BaseOf);
    GroupByItems(models, BaseOf);
  }

  /** What a successful bulk current store returns: its models grouped by base. */
  lemma BulkCurrentWriteValue(t: Tables, dtos: seq<ExchangeRatesDto>, historicalDtos: seq<ExchangeRatesDto>,
                              provider: Option<string>, now: Instant)
    requires BulkCurrentWrite(t, dtos, historicalDtos, provider, now).1.Ok?
    ensures BulkCurrentWrite(t, dtos, historicalDtos, provider, now).1.value == GroupBy(AllRateModels(dtos, now), BaseOf)
  {
  }

  /**
   * The models a bulk historical store returns are grouped by base and
   * then by day: an inner group holds exactly the models with its base
   * and its day, in order.
   */
  lemma BulkHistoricalWriteGroups(t: Tables, historicalDtos: seq<ExchangeRatesDto>, provider: Option<string>, now: Instant)
    requires BulkHistoricalWrite(t, historicalDtos, provider, now).1.Ok?
    ensures AllHistorical(historicalDtos)
    ensures var g := BulkHistoricalWrite(t, historicalDtos, provider, now).1.value;
      Keys(g) == Distinct(MapSeq(AllHistoryModels(historicalDtos, now), HistoryBaseOf))
      && Nested2Exact(g, AllHistoryModels(historicalDtos, now), HistoryBaseOf, HistoryDayOf)
  {
    assert AllHistorical(historicalDtos) by {
      forall i | 0 <= i < |historicalDtos| ensures historicalDtos[i].HistoricalExchangeRatesDto? {
        assert Accepts(Items(historicalDtos)[i], true);
      }
    }
    GroupBy2Exact(AllHistoryModels(historicalDtos, now), HistoryBaseOf, HistoryDayOf);
  }

  /**
   * Selecting a target among freshly built history models finds the
   * first entry quoting that target, with its rate, and fails only when
   * no entry does.
   */
  lemma FirstWithTargetOfModels(base: Code, rates: Rates, dateTime: Instant, now: Instant, target: Code)
    ensures FirstWithTarget(HistoryModels(base, rates, dateTime, now), target).Err?
      <==> target !in RateCodes(rates)
    ensures var r := FirstWithTarget(HistoryModels(base, rates, dateTime, now), target);
      r.Ok? ==>
        exists i :: 0 <= i < |rates| && rates[i].0 == target
          && r.value == RateHistory(base, target, rates[i].1, None, dateTime, now)
          && forall j :: 0 <= j < i ==> rates[j].0 != target
  {
    var models := HistoryModels(base, rates, dateTime, now);
    var codes := RateCodes(rates);
    assert forall i :: 0 <= i < |rates| ==> models[i].target == codes[i];
    if target in codes {
      var i :| 0 <= i < |codes| && codes[i] == target;
      assert models[i].target == target;
    }
  }
}
