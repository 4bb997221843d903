/**
 * `CurrencyExchangeRateRepository`: the one component that writes the two
 * tables (batch upserts of forward and inverse rows) and the queries every
 * provider adapter reads them back with.
 */
module Repository {
  import opened Wrappers
  import opened Calendar
  import opened Dtos
  import opened Collections
  import opened Upserts
  import opened Models
  import opened RateRows

  function BaseOf(x: ExchangeRate): Code { x.base }

  /** The string a row's pair renders as: SQL `base_currency_code || '_' || target_currency_code`. */
  function RowPairKey(x: ExchangeRate): string {
    PairToString(CurrenciesPairDto(x.base, x.target))
  }

  /** `base_currency_code || '_' || strftime('%Y-%m-%d', date_time)`. */
  function HistoryBaseDayKey(h: RateHistory): string {
    BaseToString(HistoricalBaseCurrencyDto(h.base, h.dateTime))
  }

  /** `base_currency_code || '_' || target_currency_code || '_' || strftime('%Y-%m-%d', date_time)`. */
  function HistoryPairDayKey(h: RateHistory): string {
    PairToString(HistoricalCurrenciesPairDto(h.base, h.target, h.dateTime))
  }

  function HistoryBaseOf(h: RateHistory): Code { h.base }
  function HistoryTargetOf(h: RateHistory): Code { h.target }

  /** `Carbon::parse($item->date_time)->format('Y-m-d')`. */
  function HistoryDayOf(h: RateHistory): string { FormatDate(DateOf(h.dateTime)) }

  /** The latest row of a list by `date_time`: `orderBy('date_time', 'desc')->first()`. */
  function Latest(hs: seq<RateHistory>): (r: Option<RateHistory>)
    ensures r.None? <==> hs == []
    ensures r.Some? ==> r.value in hs && forall i :: 0 <= i < |hs| ==> NotAfter(hs[i].dateTime, r.value.dateTime)
    decreases |hs|
  {
    if hs == [] then None
    else
      var last := hs[|hs| - 1];
      match Latest(hs[..|hs| - 1])
      case None => Some(last)
      case Some(p) => if Before(p.dateTime, last.dateTime) then Some(last) else Some(p)
  }

  /** The earliest row of a list by `date_time`: `orderBy('date_time', 'asc')->first()`. */
  function Earliest(hs: seq<RateHistory>): (r: Option<RateHistory>)
    ensures r.None? <==> hs == []
    ensures r.Some? ==> r.value in hs && forall i :: 0 <= i < |hs| ==> NotAfter(r.value.dateTime, hs[i].dateTime)
    decreases |hs|
  {
    if hs == [] then None
    else
      var last := hs[|hs| - 1];
      match Earliest(hs[..|hs| - 1])
      case None => Some(last)
      case Some(p) => if Before(last.dateTime, p.dateTime) then Some(last) else Some(p)
  }

  /** A history row of the pair `base`/`target`. */
  predicate OfPair(h: RateHistory, base: Code, target: Code) {
    h.base == base && h.target == target
  }

  /** The rows of one pair on or before `date`. */
  function PairRowsNotAfter(hs: seq<RateHistory>, base: Code, target: Code, date: Instant): (r: seq<RateHistory>)
    ensures forall i :: 0 <= i < |r| ==> r[i] in hs && OfPair(r[i], base, target) && NotAfter(r[i].dateTime, date)
    ensures forall i :: 0 <= i < |hs| && OfPair(hs[i], base, target) && NotAfter(hs[i].dateTime, date) ==> hs[i] in r
  {
    Filter(hs, (h: RateHistory) => OfPair(h, base, target) && NotAfter(h.dateTime, date))
  }

  /** The rows of one pair on or after `date`. */
  function PairRowsNotBefore(hs: seq<RateHistory>, base: Code, target: Code, date: Instant): (r: seq<RateHistory>)
    ensures forall i :: 0 <= i < |r| ==> r[i] in hs && OfPair(r[i], base, target) && NotAfter(date, r[i].dateTime)
    ensures forall i :: 0 <= i < |hs| && OfPair(hs[i], base, target) && NotAfter(date, hs[i].dateTime) ==> hs[i] in r
  {
    Filter(hs, (h: RateHistory) => OfPair(h, base, target) && NotAfter(date, h.dateTime))
  }

  /** A not-found exception of `firstOrFail()` on a query of the named model. */
  function NotFound(model: string): Exception {
    Exception(ModelNotFound, NotFoundMessage(model))
  }

  /**
   * The loop over one DTO's rates that `updateExchangeRates` and
   * `updateBulkExchangeRates` run: a forward and an inverse row per entry;
   * `BigDecimal::of(1)->dividedBy($rate, null, RoundingMode::DOWN)` raises
   * on the first zero rate.
   */
  method BuildCurrentRows(base: Code, rates: Rates, provider: Option<string>, now: Instant) returns (r: Result<seq<ExchangeRate>>)
    ensures NonZeroRates(rates) ==> r == Ok(CurrentRows(base, rates, provider, now))
    ensures !NonZeroRates(rates) ==> r == Err(DivisionByZeroError)
  {
    var rows: seq<ExchangeRate> := [];
    var i := 0;
    while i < |rates|
      invariant 0 <= i <= |rates|
      invariant NonZeroRates(rates[..i]) && rows == CurrentRows(base, rates[..i], provider, now)
    {
      var (code, rate) := rates[i];
      if rate == 0.0 {
        return Err(DivisionByZeroError);
      }
      assert rates[..i + 1][..i] == rates[..i];
      rows := rows + [ExchangeRate(base, code, rate, provider, now), ExchangeRate(code, base, Inverse(rate) as real, provider, now)];
      i := i + 1;
    }
    assert rates[..i] == rates;
    r := Ok(rows);
  }

  /** The same loop for the history table: every row at the DTO's `date_time`. */
  method BuildHistoryRows(base: Code, rates: Rates, dateTime: Instant, provider: Option<string>, now: Instant)
    returns (r: Result<seq<RateHistory>>)
    ensures NonZeroRates(rates) ==> r == Ok(HistoryRows(base, rates, dateTime, provider, now))
    ensures !NonZeroRates(rates) ==> r == Err(DivisionByZeroError)
  {
    var rows: seq<RateHistory> := [];
    var i := 0;
    while i < |rates|
      invariant 0 <= i <= |rates|
      invariant NonZeroRates(rates[..i]) && rows == HistoryRows(base, rates[..i], dateTime, provider, now)
    {
      var (code, rate) := rates[i];
      if rate == 0.0 {
        return Err(DivisionByZeroError);
      }
      assert rates[..i + 1][..i] == rates[..i];
      rows := rows + [RateHistory(base, code, rate, provider, dateTime, now), RateHistory(code, base, Inverse(rate) as real, provider, dateTime, now)];
      i := i + 1;
    }
    assert rates[..i] == rates;
    r := Ok(rows);
  }

  /**
   * The outer loop of `updateBulkExchangeRates`: checks each element with
   * `instanceof ExchangeRatesDto` and collects its rows, in list order.
   */
  method BuildBulkCurrentRows(items: seq<BulkItem>, provider: Option<string>, now: Instant) returns (r: Result<seq<ExchangeRate>>)
    ensures BulkFailure(items, false).Some? ==> r == Err(BulkFailure(items, false).value)
    ensures BulkFailure(items, false).None? ==> r == Ok(BulkCurrentRows(items, provider, now))
  {
    var rows: seq<ExchangeRate> := [];
    var i := 0;
    while i < |items|
      invariant 0 <= i <= |items|
      invariant AllWritable(items[..i], false) && rows == BulkCurrentRows(items[..i], provider, now)
      invariant BulkFailure(items, false) == BulkFailure(items[i..], false)
    {
      BulkStep(items, false, i);
      if !items[i].Dto? {
        return Err(NotRatesDtoError);
      }
      var dto := items[i].dto;
      var dtoRows := BuildCurrentRows(dto.base, dto.rates, provider, now);
      if dtoRows.Err? {
        return Err(dtoRows.error);
      }
      WritableSnoc(items, false, i);
      BulkCurrentRowsSnoc(items, provider, now, i);
      rows := rows + dtoRows.value;
      i := i + 1;
    }
    assert items[..i] == items;
    r := Ok(rows);
  }

  /**
   * The outer loop of `updateBulkExchangeRatesHistory`: checks each element
   * with `instanceof HistoricalExchangeRatesDto` and collects its rows.
   */
  method BuildBulkHistoryRows(items: seq<BulkItem>, provider: Option<string>, now: Instant) returns (r: Result<seq<RateHistory>>)
    ensures BulkFailure(items, true).Some? ==> r == Err(BulkFailure(items, true).value)
    ensures BulkFailure(items, true).None? ==> r == Ok(BulkHistoryRows(items, provider, now))
  {
    var rows: seq<RateHistory> := [];
    var i := 0;
    while i < |items|
      invariant 0 <= i <= |items|
      invariant AllWritable(items[..i], true) && rows == BulkHistoryRows(items[..i], provider, now)
      invariant BulkFailure(items, true) == BulkFailure(items[i..], true)
    {
      BulkStep(items, true, i);
      if !Accepts(items[i], true) {
        return Err(NotHistoricalDtoError);
      }
      var dto := items[i].dto;
      var dtoRows := BuildHistoryRows(dto.base, dto.rates, dto.dateTime, provider, now);
      if dtoRows.Err? {
        return Err(dtoRows.error);
      }
      assert NonZeroRates(dto.rates);
      WritableSnoc(items, true, i);
      BulkHistoryRowsSnoc(items, provider, now, i);
      rows := rows + dtoRows.value;
      i := i + 1;
    }
    assert items[..i] == items;
    r := Ok(rows);
  }

  /** `whereIn('base_currency_code', $bases)`: the rows of the listed bases, in table order. */
  function RowsOfBases(rates: seq<ExchangeRate>, bases: seq<Code>): (r: seq<ExchangeRate>)
    ensures forall x :: x in r <==> x in rates && x.base in bases
    decreases |rates|
  {
    if rates == [] then []
    else (if rates[0].base in bases then [rates[0]] else []) + RowsOfBases(rates[1..], bases)
  }

  class CurrencyExchangeRateRepository {
    const db: Database

    constructor (db: Database)
      ensures this.db == db
    {
      this.db := db;
    }

    // ------------------------------------------------------------- writes

    /**
     * `updateExchangeRates($base, $rates, $provider)`: a forward and an
     * inverse row per entry, in one upsert on base and target. A zero rate
     * stops the method before anything is written.
     */
    method UpdateExchangeRates(base: Code, rates: Rates, provider: Option<string>, now: Instant) returns (r: Result<bool>)
      requires db.Valid()
      modifies db
      ensures db.Valid()
      ensures NonZeroRates(rates) ==>
        r == Ok(rates != []) && db.rates == Upsert(old(db.rates), PairOf, CurrentRows(base, rates, provider, now))
        && db.history == old(db.history)
      ensures !NonZeroRates(rates) ==> r == Err(DivisionByZeroError) && db.rates == old(db.rates) && db.history == old(db.history)
    {
      var rows := BuildCurrentRows(base, rates, provider, now);
      if rows.Err? {
        return Err(rows.error);
      }
      db.UpsertRates(rows.value);
      r := Ok(rows.value != []);
    }

    /**
     * `updateExchangeRatesHistory($base, $rates, $dateTime, $provider)`:
     * the same rows, all at `dateTime`, in one upsert on base, target and
     * `date_time`.
     */
    method UpdateExchangeRatesHistory(base: Code, rates: Rates, dateTime: Instant, provider: Option<string>, now: Instant)
      returns (r: Result<bool>)
      requires db.Valid()
      modifies db
      ensures db.Valid()
      ensures NonZeroRates(rates) ==>
        r == Ok(rates != []) && db.history == Upsert(old(db.history), HistoryKeyOf, HistoryRows(base, rates, dateTime, provider, now))
        && db.rates == old(db.rates)
      ensures !NonZeroRates(rates) ==> r == Err(DivisionByZeroError) && db.rates == old(db.rates) && db.history == old(db.history)
    {
      var rows := BuildHistoryRows(base, rates, dateTime, provider, now);
      if rows.Err? {
        return Err(rows.error);
      }
      db.UpsertHistory(rows.value);
      r := Ok(rows.value != []);
    }

    /**
     * `updateBulkExchangeRates($items, $provider)`: the rows of every DTO,
     * in list order, in one upsert; the first element that is not a DTO
     * (or a zero rate before it) fails the call with nothing written.
     */
    method UpdateBulkExchangeRates(items: seq<BulkItem>, provider: Option<string>, now: Instant) returns (r: Result<bool>)
      requires db.Valid()
      modifies db
      ensures db.Valid()
      ensures BulkFailure(items, false).Some? ==>
        r == Err(BulkFailure(items, false).value) && db.rates == old(db.rates) && db.history == old(db.history)
      ensures BulkFailure(items, false).None? ==>
        r == Ok(BulkCurrentRows(items, provider, now) != [])
        && db.rates == Upsert(old(db.rates), PairOf, BulkCurrentRows(items, provider, now)) && db.history == old(db.history)
    {
      var rows := BuildBulkCurrentRows(items, provider, now);
      if rows.Err? {
        return Err(rows.error);
      }
      db.UpsertRates(rows.value);
      r := Ok(rows.value != []);
    }

    /**
     * `updateBulkExchangeRatesHistory($items, $provider)`: only historical
     * DTOs are accepted, and each one's rows carry its own `date_time`.
     */
    method UpdateBulkExchangeRatesHistory(items: seq<BulkItem>, provider: Option<string>, now: Instant) returns (r: Result<bool>)
      requires db.Valid()
      modifies db
      ensures db.Valid()
      ensures BulkFailure(items, true).Some? ==>
        r == Err(BulkFailure(items, true).value) && db.rates == old(db.rates) && db.history == old(db.history)
      ensures BulkFailure(items, true).None? ==>
        r == Ok(BulkHistoryRows(items, provider, now) != [])
        && db.history == Upsert(old(db.history), HistoryKeyOf, BulkHistoryRows(items, provider, now)) && db.rates == old(db.rates)
    {
      var rows := BuildBulkHistoryRows(items, provider, now);
      if rows.Err? {
        return Err(rows.error);
      }
      db.UpsertHistory(rows.value);
      r := Ok(rows.value != []);
    }

    // -------------------------------------------------------- current rates

    /** `getAllExchangeRates()`: `CurrencyExchangeRate::all()`, every row in id order. */
    function GetAllExchangeRates(): (r: seq<ExchangeRate>)
      reads db
      ensures forall k :: Lookup(r, PairOf, k) == Lookup(db.rates, PairOf, k)
      ensures |r| == |db.rates|
    {
      db.rates
    }

    /** `getExchangeRates($base)`: the rows whose base is `base`, in id order. */
    function GetExchangeRates(base: Code): (r: seq<ExchangeRate>)
      reads db
      ensures forall i :: 0 <= i < |r| ==> r[i] in db.rates && r[i].base == base
      ensures forall i :: 0 <= i < |db.rates| && db.rates[i].base == base ==> db.rates[i] in r
    {
      RowsWithBase(db.rates, base)
    }

    /**
     * `getBulkExchangeRates($bases)`: the rows of the requested bases
     * grouped by base, one group per base that has rows, in order of the
     * groups' first rows.
     */
    function GetBulkExchangeRates(bases: seq<Code>): (r: seq<Group<Code, ExchangeRate>>)
      reads db
      ensures NoDuplicates(Keys(r))
      ensures forall i, x :: 0 <= i < |r| ==> (x in r[i].items <==> x in db.rates && x.base in bases && x.base == r[i].key)
      ensures forall i :: 0 <= i < |r| ==> r[i].items != []
      ensures forall x :: x in db.rates && x.base in bases ==> x.base in Keys(r)
    {
      var rows := RowsOfBases(db.rates, bases);
      var r := GroupBy(rows, BaseOf);
      assert NoDuplicates(Keys(r)) by {
        GroupByKeys(rows, BaseOf);
      }
      assert forall i, x :: 0 <= i < |r| ==> r[i].items != [] && (x in r[i].items <==> x in db.rates && x.base in bases && x.base == r[i].key) by {
        forall i, x | 0 <= i < |r| ensures r[i].items != [] && (x in r[i].items <==> x in db.rates && x.base in bases && x.base == r[i].key) {
          GroupKeyWitness(rows, BaseOf, i);
          WithKeyMember(rows, BaseOf, r[i].key, x);
        }
      }
      assert forall x :: x in db.rates && x.base in bases ==> x.base in Keys(r) by {
        forall x | x in db.rates && x.base in bases ensures x.base in Keys(r) {
          GroupKeyOfMember(rows, BaseOf, x);
        }
      }
      r
    }

    /**
     * `getExchangeRate($base, $target)`: the row of the pair, or
     * `ModelNotFoundException` when the table has none.
     */
    function GetExchangeRate(base: Code, target: Code): (r: Result<ExchangeRate>)
      reads db
      ensures r.Ok? ==> r.value in db.rates && r.value.base == base && r.value.target == target
      ensures r.Err? <==> forall i :: 0 <= i < |db.rates| ==> PairOf(db.rates[i]) != (base, target)
      ensures r.Err? ==> r.error == NotFound(RateModelClass)
    {
      match Lookup(db.rates, PairOf, (base, target))
      case Some(x) => Ok(x)
      case None => Err(NotFound(RateModelClass))
    }

    /**
     * `getBulkExchangeRate($pairs)`: the rows whose `BASE_TARGET` string is
     * among the requested pairs' strings, grouped by that string.
     */
    function GetBulkExchangeRate(pairs: seq<CurrenciesPairDto>): (r: seq<Group<string, ExchangeRate>>)
      reads db
      ensures NoDuplicates(Keys(r))
      ensures forall i, x :: 0 <= i < |r| ==>
        (x in r[i].items <==> x in db.rates && RowPairKey(x) in MapSeq(pairs, PairToString) && RowPairKey(x) == r[i].key)
      ensures forall i :: 0 <= i < |r| ==> r[i].items != []
      ensures forall x :: x in db.rates && RowPairKey(x) in MapSeq(pairs, PairToString) ==> RowPairKey(x) in Keys(r)
    {
      var wanted := Distinct(MapSeq(pairs, PairToString));
      var p := (x: ExchangeRate) => RowPairKey(x) in wanted;
      forall x: ExchangeRate ensures p(x) <==> RowPairKey(x) in MapSeq(pairs, PairToString) {
        DistinctMembers(MapSeq(pairs, PairToString), RowPairKey(x));
      }
      GroupFilterMembership(db.rates, p, RowPairKey);
      GroupBy(Filter(db.rates, p), RowPairKey)
    }

    // ----------------------------------------------------------- history

    /** `getHistoricalExchangeRates($base, $dateTime)`: the rows of `base` on the day of `dateTime`. */
    function GetHistoricalExchangeRates(base: Code, dateTime: Instant): (r: seq<RateHistory>)
      reads db
      ensures forall i :: 0 <= i < |r| ==> r[i] in db.history && r[i].base == base && OnDayOf(r[i].dateTime, dateTime)
      ensures forall i :: 0 <= i < |db.history| && db.history[i].base == base && OnDayOf(db.history[i].dateTime, dateTime) ==>
        db.history[i] in r
    {
      Filter(db.history, (h: RateHistory) => h.base == base && OnDayOf(h.dateTime, dateTime))
    }

    /**
     * `getHistoricalExchangeRate($base, $target, $dateTime)`: the first row
     * of the pair on that day, or `ModelNotFoundException`.
     */
    function GetHistoricalExchangeRate(base: Code, target: Code, dateTime: Instant): (r: Result<RateHistory>)
      reads db
      ensures r.Ok? ==> r.value in db.history && r.value.base == base && r.value.target == target && OnDayOf(r.value.dateTime, dateTime)
      ensures r.Err? <==> forall i :: 0 <= i < |db.history| ==>
        !(db.history[i].base == base && db.history[i].target == target && OnDayOf(db.history[i].dateTime, dateTime))
      ensures r.Err? ==> r.error == NotFound(HistoryModelClass)
    {
      var found := Filter(db.history, (h: RateHistory) => h.base == base && h.target == target && OnDayOf(h.dateTime, dateTime));
      if found == [] then Err(NotFound(HistoryModelClass)) else Ok(found[0])
    }

    /**
     * `getBulkHistoricalExchangeRates($requests)`: the rows whose
     * `BASE_Y-m-d` string is among the requests' strings, grouped by it.
     */
    function GetBulkHistoricalExchangeRates(requests: seq<HistoricalBaseCurrencyDto>): (r: seq<Group<string, RateHistory>>)
      reads db
      ensures NoDuplicates(Keys(r))
      ensures forall i, x :: 0 <= i < |r| ==>
        (x in r[i].items <==> x in db.history && HistoryBaseDayKey(x) in MapSeq(requests, BaseToString) && HistoryBaseDayKey(x) == r[i].key)
      ensures forall i :: 0 <= i < |r| ==> r[i].items != []
      ensures forall x :: x in db.history && HistoryBaseDayKey(x) in MapSeq(requests, BaseToString) ==> HistoryBaseDayKey(x) in Keys(r)
    {
      var wanted := Distinct(MapSeq(requests, BaseToString));
      var p := (h: RateHistory) => HistoryBaseDayKey(h) in wanted;
      forall h: RateHistory ensures p(h) <==> HistoryBaseDayKey(h) in MapSeq(requests, BaseToString) {
        DistinctMembers(MapSeq(requests, BaseToString), HistoryBaseDayKey(h));
      }
      GroupFilterMembership(db.history, p, HistoryBaseDayKey);
      GroupBy(Filter(db.history, p), HistoryBaseDayKey)
    }

    /** The history rows `getBulkHistoricalExchangeRate($pairs)` selects, in id order. */
    function SelectedHistoricalPairs(pairs: seq<CurrenciesPairDto>): (r: seq<RateHistory>)
      reads db
      ensures forall i :: 0 <= i < |r| ==> r[i] in db.history && HistoryPairDayKey(r[i]) in MapSeq(pairs, PairToString)
      ensures forall i :: 0 <= i < |db.history| && HistoryPairDayKey(db.history[i]) in MapSeq(pairs, PairToString) ==>
        db.history[i] in r
    {
      var wanted := Distinct(MapSeq(pairs, PairToString));
      forall i | 0 <= i < |db.history| ensures HistoryPairDayKey(db.history[i]) in wanted <==> HistoryPairDayKey(db.history[i]) in MapSeq(pairs, PairToString) {
        DistinctMembers(MapSeq(pairs, PairToString), HistoryPairDayKey(db.history[i]));
      }
      Filter(db.history, (h: RateHistory) => HistoryPairDayKey(h) in wanted)
    }

    /**
     * `getBulkHistoricalExchangeRate($pairs)`: the selected rows grouped by
     * base, then by target, then by `Y-m-d` day; each innermost group holds
     * the selected rows with its three keys, in id order.
     */
    function GetBulkHistoricalExchangeRate(pairs: seq<CurrenciesPairDto>): (r: seq<Group<Code, Group<Code, Group<string, RateHistory>>>>)
      reads db
      ensures NoDuplicates(Keys(r))
      ensures Nested3NonEmpty(r)
      ensures Nested3Exact(r, SelectedHistoricalPairs(pairs), HistoryBaseOf, HistoryTargetOf, HistoryDayOf)
    {
      var selected := SelectedHistoricalPairs(pairs);
      GroupBy3Keys(selected, HistoryBaseOf, HistoryTargetOf, HistoryDayOf);
      GroupBy3AllNonEmpty(selected, HistoryBaseOf, HistoryTargetOf, HistoryDayOf);
      GroupBy3Exact(selected, HistoryBaseOf, HistoryTargetOf, HistoryDayOf);
      GroupBy3(selected, HistoryBaseOf, HistoryTargetOf, HistoryDayOf)
    }

    // ------------------------------------------------------ bounding rates

    /**
     * `getPreviousHistoricalRate($base, $target, $date)`: the pair's latest
     * row on or before `date`, if any.
     */
    function GetPreviousHistoricalRate(base: Code, target: Code, date: Instant): (r: Option<RateHistory>)
      reads db
      ensures r.Some? ==> r.value in db.history && OfPair(r.value, base, target) && NotAfter(r.value.dateTime, date)
      ensures r.Some? ==>
        forall i :: 0 <= i < |db.history| && OfPair(db.history[i], base, target) ==>
          NotAfter(db.history[i].dateTime, date) ==> NotAfter(db.history[i].dateTime, r.value.dateTime)
      ensures r.None? <==>
        forall i :: 0 <= i < |db.history| && OfPair(db.history[i], base, target) ==>
          Before(date, db.history[i].dateTime)
    {
      var hs := PairRowsNotAfter(db.history, base, target, date);
      var r := Latest(hs);
      assert r.Some? ==>
        forall i :: 0 <= i < |db.history| && OfPair(db.history[i], base, target) ==>
          NotAfter(db.history[i].dateTime, date) ==> NotAfter(db.history[i].dateTime, r.value.dateTime) by {
        if r.Some? {
          forall i | 0 <= i < |db.history| && OfPair(db.history[i], base, target) && NotAfter(db.history[i].dateTime, date)
            ensures NotAfter(db.history[i].dateTime, r.value.dateTime)
          {
            var j :| 0 <= j < |hs| && hs[j] == db.history[i];
          }
        }
      }
      r
    }

    /**
     * `getNextHistoricalRate($base, $target, $date)`: the pair's earliest
     * row on or after `date`, if any.
     */
    function GetNextHistoricalRate(base: Code, target: Code, date: Instant): (r: Option<RateHistory>)
      reads db
      ensures r.Some? ==> r.value in db.history && OfPair(r.value, base, target) && NotAfter(date, r.value.dateTime)
      ensures r.Some? ==>
        forall i :: 0 <= i < |db.history| && OfPair(db.history[i], base, target) ==>
          NotAfter(date, db.history[i].dateTime) ==> NotAfter(r.value.dateTime, db.history[i].dateTime)
      ensures r.None? <==>
        forall i :: 0 <= i < |db.history| && OfPair(db.history[i], base, target) ==>
          Before(db.history[i].dateTime, date)
    {
      var hs := PairRowsNotBefore(db.history, base, target, date);
      var r := Earliest(hs);
      assert r.Some? ==>
        forall i :: 0 <= i < |db.history| && OfPair(db.history[i], base, target) ==>
          NotAfter(date, db.history[i].dateTime) ==> NotAfter(r.value.dateTime, db.history[i].dateTime) by {
        if r.Some? {
          forall i | 0 <= i < |db.history| && OfPair(db.history[i], base, target) && NotAfter(date, db.history[i].dateTime)
            ensures NotAfter(r.value.dateTime, db.history[i].dateTime)
          {
            var j :| 0 <= j < |hs| && hs[j] == db.history[i];
          }
        }
      }
      r
    }

    /**
     * `getBoundingHistoricalRates($base, $target, $date)`: the previous and
     * the next rate, or nothing when one is missing or both are the same
     * record (`$before->is($after)`, the same unique key).
     */
    function GetBoundingHistoricalRates(base: Code, target: Code, date: Instant): (r: seq<RateHistory>)
      reads db
      ensures r == [] || |r| == 2
      ensures |r| == 2 ==>
        Some(r[0]) == GetPreviousHistoricalRate(base, target, date)
        && Some(r[1]) == GetNextHistoricalRate(base, target, date)
        && HistoryKeyOf(r[0]) != HistoryKeyOf(r[1])
    {
      match (GetPreviousHistoricalRate(base, target, date), GetNextHistoricalRate(base, target, date))
      case (Some(before), Some(after)) => if HistoryKeyOf(before) == HistoryKeyOf(after) then [] else [before, after]
      case _ => []
    }

    /** Whether the pair has a row on or before `date`, one on or after it, and one exactly at it. */
    ghost predicate HasRowNotAfter(base: Code, target: Code, date: Instant)
      reads db
    {
      exists i :: 0 <= i < |db.history| && OfPair(db.history[i], base, target) && NotAfter(db.history[i].dateTime, date)
    }

    ghost predicate HasRowNotBefore(base: Code, target: Code, date: Instant)
      reads db
    {
      exists i :: 0 <= i < |db.history| && OfPair(db.history[i], base, target) && NotAfter(date, db.history[i].dateTime)
    }

    ghost predicate HasRowAt(base: Code, target: Code, date: Instant)
      reads db
    {
      exists i :: 0 <= i < |db.history| && OfPair(db.history[i], base, target) && db.history[i].dateTime == date
    }

    /** A proper interval has a row on each side of the date and none at the date itself. */
    lemma BoundingRatesNonEmpty(base: Code, target: Code, date: Instant)
      requires GetBoundingHistoricalRates(base, target, date) != []
      ensures HasRowNotAfter(base, target, date) && HasRowNotBefore(base, target, date) && !HasRowAt(base, target, date)
    {
      var H := db.history;
      var p := GetPreviousHistoricalRate(base, target, date).value;
      var n := GetNextHistoricalRate(base, target, date).value;
      var i :| 0 <= i < |H| && H[i] == p;
      var j :| 0 <= j < |H| && H[j] == n;
      assert OfPair(H[i], base, target) && NotAfter(H[i].dateTime, date);
      assert OfPair(H[j], base, target) && NotAfter(date, H[j].dateTime);
      OrderIsTotal(p.dateTime, date, date);
      OrderIsTotal(n.dateTime, date, date);
      forall k | 0 <= k < |H| && OfPair(H[k], base, target) ensures H[k].dateTime != date {
      }
    }

    /** Without a row at the date, no row of the pair carries it. */
    lemma NoRowAt(base: Code, target: Code, date: Instant, h: RateHistory)
      requires !HasRowAt(base, target, date) && h in db.history && OfPair(h, base, target)
      ensures h.dateTime != date
    {
      var k :| 0 <= k < |db.history| && db.history[k] == h;
    }

    /** A row on each side of the date and none at the date give a proper interval. */
    lemma BoundingRatesWhen(base: Code, target: Code, date: Instant)
      requires HasRowNotAfter(base, target, date) && HasRowNotBefore(base, target, date) && !HasRowAt(base, target, date)
      ensures GetBoundingHistoricalRates(base, target, date) != []
    {
      var H := db.history;
      var i :| 0 <= i < |H| && OfPair(H[i], base, target) && NotAfter(H[i].dateTime, date);
      var j :| 0 <= j < |H| && OfPair(H[j], base, target) && NotAfter(date, H[j].dateTime);
      var prev := GetPreviousHistoricalRate(base, target, date);
      var next := GetNextHistoricalRate(base, target, date);
      assert !Before(date, H[i].dateTime);
      assert !Before(H[j].dateTime, date);
      var p, n := prev.value, next.value;
      NoRowAt(base, target, date, p);
      OrderIsTotal(p.dateTime, date, date);
      assert HistoryKeyOf(p) != HistoryKeyOf(n);
    }

    /**
     * The interval is tight: its first rate is strictly before the date,
     * its second strictly after, and no row of the pair lies strictly
     * between them.
     */
    lemma BoundingRatesTight(base: Code, target: Code, date: Instant)
      requires GetBoundingHistoricalRates(base, target, date) != []
      ensures var r := GetBoundingHistoricalRates(base, target, date);
        Before(r[0].dateTime, date) && Before(date, r[1].dateTime)
      ensures var r := GetBoundingHistoricalRates(base, target, date);
        forall k :: 0 <= k < |db.history| && OfPair(db.history[k], base, target) ==>
          !(Before(r[0].dateTime, db.history[k].dateTime) && Before(db.history[k].dateTime, r[1].dateTime))
    {
      var H := db.history;
      var p := GetPreviousHistoricalRate(base, target, date).value;
      var n := GetNextHistoricalRate(base, target, date).value;
      BoundingRatesNonEmpty(base, target, date);
      var i :| 0 <= i < |H| && H[i] == p;
      var j :| 0 <= j < |H| && H[j] == n;
      assert H[i].dateTime != date && H[j].dateTime != date;
      OrderIsTotal(p.dateTime, date, date);
      OrderIsTotal(n.dateTime, date, date);
      forall k | 0 <= k < |H| && OfPair(H[k], base, target)
        ensures !(Before(p.dateTime, H[k].dateTime) && Before(H[k].dateTime, n.dateTime))
      {
        OrderIsTotal(H[k].dateTime, date, date);
      }
    }

    /** Both directions together: the bounds are a proper interval exactly when the date falls strictly between two rows. */
    lemma BoundingRatesIff(base: Code, target: Code, date: Instant)
      ensures GetBoundingHistoricalRates(base, target, date) != [] <==>
        HasRowNotAfter(base, target, date) && HasRowNotBefore(base, target, date) && !HasRowAt(base, target, date)
    {
      if GetBoundingHistoricalRates(base, target, date) != [] {
        BoundingRatesNonEmpty(base, target, date);
      }
      if HasRowNotAfter(base, target, date) && HasRowNotBefore(base, target, date) && !HasRowAt(base, target, date) {
        BoundingRatesWhen(base, target, date);
      }
    }
  }

}
