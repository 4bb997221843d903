/**
 * The rows the repository's four `update*` methods hand to `upsert`:
 * for each `code => rate` entry, in order, a forward row
 * `(base, code, rate)` and then an inverse row `(code, base, 1 / rate)`
 * rounded DOWN at scale 0, all with the caller's provider.
 */
module RateRows {
  import opened Wrappers
  import opened Calendar
  import opened Dtos
  import opened Collections
  import opened Upserts
  import opened Models

  /**
   * `BigDecimal::of(1)->dividedBy($rate, null, RoundingMode::DOWN)`: a null
   * scale keeps the dividend's scale, 0, so the quotient is cut to the
   * integer next to zero.
   */
  function Inverse(rate: real): (q: int)
    requires rate != 0.0
    ensures rate > 0.0 ==> q as real <= 1.0 / rate < q as real + 1.0
    ensures rate < 0.0 ==> q as real - 1.0 < 1.0 / rate <= q as real
  {
    if rate > 0.0 then (1.0 / rate).Floor else -((-1.0 / rate).Floor)
  }

  /** A rate above 1 has inverse 0, and a rate in (1/2, 1] has inverse 1. */
  lemma InverseOfCommonRates(rate: real)
    requires rate > 0.0
    ensures rate > 1.0 ==> Inverse(rate) == 0
    ensures 0.5 < rate <= 1.0 ==> Inverse(rate) == 1
  {
    var q := 1.0 / rate;
    assert q * rate == 1.0;
    assert q > 0.0;
    if rate > 1.0 {
      assert q < 1.0;
    } else if 0.5 < rate {
      assert 1.0 <= q < 2.0;
    }
  }

  /** `DivisionByZeroException`, raised by a zero rate. */
  const DivisionByZeroError := Exception(DivisionByZero, "Division by zero.")

  predicate NonZeroRates(rates: Rates) {
    forall i :: 0 <= i < |rates| ==> rates[i].1 != 0.0
  }

  /** The rows `updateExchangeRates($base, $rates, $provider)` upserts. */
  function CurrentRows(base: Code, rates: Rates, provider: Option<string>, now: Instant): (r: seq<ExchangeRate>)
    requires NonZeroRates(rates)
    ensures |r| == 2 * |rates|
    ensures forall i :: 0 <= i < |rates| ==>
      r[2 * i] == ExchangeRate(base, rates[i].0, rates[i].1, provider, now)
      && r[2 * i + 1] == ExchangeRate(rates[i].0, base, Inverse(rates[i].1) as real, provider, now)
    decreases |rates|
  {
    if rates == [] then []
    else
      var (code, rate) := rates[|rates| - 1];
      CurrentRows(base, rates[..|rates| - 1], provider, now)
      + [ExchangeRate(base, code, rate, provider, now), ExchangeRate(code, base, Inverse(rate) as real, provider, now)]
  }

  /** The rows `updateExchangeRatesHistory($base, $rates, $dateTime, $provider)` upserts. */
  function HistoryRows(base: Code, rates: Rates, dateTime: Instant, provider: Option<string>, now: Instant): (r: seq<RateHistory>)
    requires NonZeroRates(rates)
    ensures |r| == 2 * |rates|
    ensures forall i :: 0 <= i < |rates| ==>
      r[2 * i] == RateHistory(base, rates[i].0, rates[i].1, provider, dateTime, now)
      && r[2 * i + 1] == RateHistory(rates[i].0, base, Inverse(rates[i].1) as real, provider, dateTime, now)
    decreases |rates|
  {
    if rates == [] then []
    else
      var (code, rate) := rates[|rates| - 1];
      HistoryRows(base, rates[..|rates| - 1], dateTime, provider, now)
      + [RateHistory(base, code, rate, provider, dateTime, now), RateHistory(code, base, Inverse(rate) as real, provider, dateTime, now)]
  }

  // -------------------------------------------------------------- bulk input

  const NotRatesDtoError := Exception(InvalidArgument,
    "Exchange rate must be an instance of \\BrightCreations\\ExchangeRates\\Dtos\\ExchangeRatesDto")
  const NotHistoricalDtoError := Exception(InvalidArgument,
    "Historical exchange rate must be an instance of \\BrightCreations\\ExchangeRates\\Dtos\\HistoricalExchangeRatesDto")

  /**
   * Whether a bulk update accepts an element: any `ExchangeRatesDto` (the
   * historical subclass included) for the current table, only a
   * `HistoricalExchangeRatesDto` for the history table.
   */
  predicate Accepts(item: BulkItem, historical: bool) {
    item.Dto? && (historical ==> item.dto.HistoricalExchangeRatesDto?)
  }

  /** Every element is accepted and has no zero rate: the bulk update reaches its upsert. */
  predicate AllWritable(items: seq<BulkItem>, historical: bool) {
    forall i :: 0 <= i < |items| ==> Accepts(items[i], historical) && NonZeroRates(items[i].dto.rates)
  }

  /**
   * The exception a bulk update raises, if any: scanning the elements in
   * order, the first that is not an accepted DTO raises
   * `InvalidArgumentException`, and before that the first zero rate of an
   * accepted one raises `DivisionByZeroException`.
   */
  function BulkFailure(items: seq<BulkItem>, historical: bool): (e: Option<Exception>)
    ensures e.None? <==> AllWritable(items, historical)
    ensures e.Some? ==> e.value == (if historical then NotHistoricalDtoError else NotRatesDtoError) || e.value == DivisionByZeroError
    decreases |items|
  {
    if items == [] then None
    else if !Accepts(items[0], historical) then Some(if historical then NotHistoricalDtoError else NotRatesDtoError)
    else if !NonZeroRates(items[0].dto.rates) then Some(DivisionByZeroError)
    else
      var rest := BulkFailure(items[1..], historical);
      assert rest.None? ==> AllWritable(items, historical) by {
        if rest.None? {
          forall i | 0 <= i < |items| ensures Accepts(items[i], historical) && NonZeroRates(items[i].dto.rates) {
            if i > 0 { assert items[i] == items[1..][i - 1]; }
          }
        }
      }
      rest
  }

  /** One step of the scan, at element `i`. */
  lemma BulkStep(items: seq<BulkItem>, historical: bool, i: nat)
    requires i < |items|
    ensures !Accepts(items[i], historical) ==>
      BulkFailure(items[i..], historical) == Some(if historical then NotHistoricalDtoError else NotRatesDtoError)
    ensures Accepts(items[i], historical) && !NonZeroRates(items[i].dto.rates) ==>
      BulkFailure(items[i..], historical) == Some(DivisionByZeroError)
    ensures Accepts(items[i], historical) && NonZeroRates(items[i].dto.rates) ==>
      BulkFailure(items[i..], historical) == BulkFailure(items[i + 1..], historical)
  {
    assert items[i..][0] == items[i];
    assert items[i..][1..] == items[i + 1..];
  }

  lemma WritableSnoc(items: seq<BulkItem>, historical: bool, i: nat)
    requires i < |items| && AllWritable(items[..i], historical)
    requires Accepts(items[i], historical) && NonZeroRates(items[i].dto.rates)
    ensures AllWritable(items[..i + 1], historical)
  {
    assert items[..i + 1][..i] == items[..i];
  }

  /** The rows `updateBulkExchangeRates($items, $provider)` upserts. */
  function BulkCurrentRows(items: seq<BulkItem>, provider: Option<string>, now: Instant): (r: seq<ExchangeRate>)
    requires AllWritable(items, false)
    decreases |items|
  {
    if items == [] then []
    else
      var dto := items[|items| - 1].dto;
      assert AllWritable(items[..|items| - 1], false);
      BulkCurrentRows(items[..|items| - 1], provider, now) + CurrentRows(dto.base, dto.rates, provider, now)
  }

  /** The rows `updateBulkExchangeRatesHistory($items, $provider)` upserts, each DTO with its own `date_time`. */
  function BulkHistoryRows(items: seq<BulkItem>, provider: Option<string>, now: Instant): (r: seq<RateHistory>)
    requires AllWritable(items, true)
    decreases |items|
  {
    if items == [] then []
    else
      var dto := items[|items| - 1].dto;
      assert AllWritable(items[..|items| - 1], true);
      BulkHistoryRows(items[..|items| - 1], provider, now) + HistoryRows(dto.base, dto.rates, dto.dateTime, provider, now)
  }

  lemma BulkCurrentRowsSnoc(items: seq<BulkItem>, provider: Option<string>, now: Instant, i: nat)
    requires i < |items| && AllWritable(items[..i + 1], false)
    ensures AllWritable(items[..i], false)
    ensures BulkCurrentRows(items[..i + 1], provider, now)
      == BulkCurrentRows(items[..i], provider, now) + CurrentRows(items[i].dto.base, items[i].dto.rates, provider, now)
  {
    assert items[..i + 1][..i] == items[..i];
  }

  lemma BulkHistoryRowsSnoc(items: seq<BulkItem>, provider: Option<string>, now: Instant, i: nat)
    requires i < |items| && AllWritable(items[..i + 1], true)
    ensures AllWritable(items[..i], true)
    ensures BulkHistoryRows(items[..i + 1], provider, now)
      == BulkHistoryRows(items[..i], provider, now) + HistoryRows(items[i].dto.base, items[i].dto.rates, items[i].dto.dateTime, provider, now)
  {
    assert items[..i + 1][..i] == items[..i];
  }

  /** A bulk update of one DTO writes exactly the rows of the single update. */
  lemma BulkOfOne(dto: ExchangeRatesDto, provider: Option<string>, now: Instant)
    requires NonZeroRates(dto.rates)
    ensures AllWritable([Dto(dto)], false)
    ensures BulkCurrentRows([Dto(dto)], provider, now) == CurrentRows(dto.base, dto.rates, provider, now)
  {
    assert [Dto(dto)][..0] == [];
  }

  // --------------------------------------------------- the effect on a table

  /** The codes of a PHP array are its keys, so they are distinct. */
  predicate DistinctCodes(rates: Rates) {
    forall i, j :: 0 <= i < j < |rates| ==> rates[i].0 != rates[j].0
  }

  /**
   * The rate the pair `(base, code)` holds once the rows of an entry
   * `code => rate` are upserted. It is the entry's rate, except when the
   * response quotes the base against itself: then the forward and the
   * inverse row share the pair, and the inverse, written second, wins.
   */
  function CarriedRate(base: Code, code: Code, rate: real): (q: real)
    requires rate != 0.0
  {
    if code == base then Inverse(rate) as real else rate
  }

  /**
   * The carried rate is the quoted rate for every code but the base, and
   * also for the base when it is quoted at 1, as the providers quote it.
   */
  lemma CarriedRateIsQuoted(base: Code, code: Code, rate: real)
    requires rate != 0.0
    ensures code != base ==> CarriedRate(base, code, rate) == rate
    ensures code == base ==> CarriedRate(base, code, rate) == Inverse(rate) as real
    ensures rate == 1.0 ==> CarriedRate(base, code, rate) == rate
  {
    if rate == 1.0 {
      assert 1.0 / rate == 1.0;
    }
  }

  lemma {:induction false} LastWithKeyAppend<R, K>(a: seq<R>, b: seq<R>, key: R -> K, k: K)
    ensures LastWithKey(a + b, key, k) ==
      match LastWithKey(b, key, k)
      case Some(r) => Some(r)
      case None => LastWithKey(a, key, k)
    decreases |a|
  {
    if a == [] {
      assert a + b == b;
    } else {
      assert (a + b)[1..] == a[1..] + b;
      LastWithKeyAppend(a[1..], b, key, k);
    }
  }

  /**
   * In the rows of `updateExchangeRates($base, $rates)` the pair
   * `(base, code)` is carried last by a row of that code's entry with the
   * carried rate (the forward row, or for the base itself the inverse row),
   * and a pair `(base, c)` for a code `c` the array does not quote by none.
   */
  lemma CurrentRowsCarry(base: Code, rates: Rates, provider: Option<string>, now: Instant, c: Code)
    requires NonZeroRates(rates) && DistinctCodes(rates)
    ensures forall i :: 0 <= i < |rates| && rates[i].0 == c ==>
      LastWithKey(CurrentRows(base, rates, provider, now), PairOf, (base, c))
      == Some(ExchangeRate(base, c, CarriedRate(base, c, rates[i].1), provider, now))
    ensures (forall i :: 0 <= i < |rates| ==> rates[i].0 != c) ==>
      LastWithKey(CurrentRows(base, rates, provider, now), PairOf, (base, c)) == None
  {
    var rows := CurrentRows(base, rates, provider, now);
    forall m | 0 <= m < |rows|
      ensures PairOf(rows[m]) == (base, c) ==> rates[m / 2].0 == c && (m % 2 == 1 ==> c == base)
    {
      CurrentRowAt(base, rates, provider, now, m);
    }
    forall i | 0 <= i < |rates| && rates[i].0 == c
      ensures LastWithKey(rows, PairOf, (base, c)) == Some(ExchangeRate(base, c, CarriedRate(base, c, rates[i].1), provider, now))
    {
      var j := if c == base then 2 * i + 1 else 2 * i;
      CurrentRowAt(base, rates, provider, now, j);
      forall m | j < m < |rows| ensures PairOf(rows[m]) != (base, c) {
        if PairOf(rows[m]) == (base, c) {
          SameCodeSameEntry(rates, i, m / 2);
          assert false;
        }
      }
      LastWithKeyAt(rows, PairOf, (base, c), j);
    }
  }

  /** Distinct codes: two entries with one code are one entry. */
  lemma SameCodeSameEntry(rates: Rates, i: nat, j: nat)
    requires DistinctCodes(rates) && i < |rates| && j < |rates| && rates[i].0 == rates[j].0
    ensures i == j
  {
  }

  /** Row `m` of `updateExchangeRates`: the forward row of entry `m / 2` when `m` is even, its reciprocal otherwise. */
  lemma CurrentRowAt(base: Code, rates: Rates, provider: Option<string>, now: Instant, m: nat)
    requires NonZeroRates(rates) && m < 2 * |rates|
    ensures var r := CurrentRows(base, rates, provider, now)[m];
      if m % 2 == 0 then r == ExchangeRate(base, rates[m / 2].0, rates[m / 2].1, provider, now)
      else r == ExchangeRate(rates[m / 2].0, base, Inverse(rates[m / 2].1) as real, provider, now)
  {
    var i := m / 2;
    if m % 2 == 0 { assert m == 2 * i; } else { assert m == 2 * i + 1; }
  }

  /** The same for the rows of `updateExchangeRatesHistory`, whose pairs share one `date_time`. */
  lemma HistoryRowsCarry(base: Code, rates: Rates, dateTime: Instant, provider: Option<string>, now: Instant, c: Code)
    requires NonZeroRates(rates) && DistinctCodes(rates)
    ensures forall i :: 0 <= i < |rates| && rates[i].0 == c ==>
      LastWithKey(HistoryRows(base, rates, dateTime, provider, now), HistoryKeyOf, (base, c, dateTime))
      == Some(RateHistory(base, c, CarriedRate(base, c, rates[i].1), provider, dateTime, now))
    ensures (forall i :: 0 <= i < |rates| ==> rates[i].0 != c) ==>
      LastWithKey(HistoryRows(base, rates, dateTime, provider, now), HistoryKeyOf, (base, c, dateTime)) == None
  {
    var rows := HistoryRows(base, rates, dateTime, provider, now);
    var k := (base, c, dateTime);
    forall m | 0 <= m < |rows|
      ensures HistoryKeyOf(rows[m]) == k ==> rates[m / 2].0 == c && (m % 2 == 1 ==> c == base)
    {
      HistoryRowAt(base, rates, dateTime, provider, now, m);
    }
    forall i | 0 <= i < |rates| && rates[i].0 == c
      ensures LastWithKey(rows, HistoryKeyOf, k) == Some(RateHistory(base, c, CarriedRate(base, c, rates[i].1), provider, dateTime, now))
    {
      var j := if c == base then 2 * i + 1 else 2 * i;
      HistoryRowAt(base, rates, dateTime, provider, now, j);
      forall m | j < m < |rows| ensures HistoryKeyOf(rows[m]) != k {
        if HistoryKeyOf(rows[m]) == k {
          SameCodeSameEntry(rates, i, m / 2);
          assert false;
        }
      }
      LastWithKeyAt(rows, HistoryKeyOf, k, j);
    }
  }

  lemma HistoryRowAt(base: Code, rates: Rates, dateTime: Instant, provider: Option<string>, now: Instant, m: nat)
    requires NonZeroRates(rates) && m < 2 * |rates|
    ensures var r := HistoryRows(base, rates, dateTime, provider, now)[m];
      if m % 2 == 0 then r == RateHistory(base, rates[m / 2].0, rates[m / 2].1, provider, dateTime, now)
      else r == RateHistory(rates[m / 2].0, base, Inverse(rates[m / 2].1) as real, provider, dateTime, now)
  {
    var i := m / 2;
    if m % 2 == 0 { assert m == 2 * i; } else { assert m == 2 * i + 1; }
  }

  lemma LastWithKeyAt<R, K>(rows: seq<R>, key: R -> K, k: K, j: nat)
    requires j < |rows| && key(rows[j]) == k
    requires forall m :: j < m < |rows| ==> key(rows[m]) != k
    ensures LastWithKey(rows, key, k) == Some(rows[j])
    decreases |rows|
  {
    if j > 0 {
      LastWithKeyAt(rows[1..], key, k, j - 1);
    }
  }

  /**
   * After `updateExchangeRates($base, $rates)` the pair `(base, code)` of
   * every entry holds that entry's row with the carried rate, and every
   * pair of `base` the array does not quote is as it was.
   */
  lemma UpdatedForwardRates(t: seq<ExchangeRate>, base: Code, rates: Rates, provider: Option<string>, now: Instant)
    requires UniqueKeys(t, PairOf) && NonZeroRates(rates) && DistinctCodes(rates)
    ensures UniqueKeys(Upsert(t, PairOf, CurrentRows(base, rates, provider, now)), PairOf)
    ensures forall i :: 0 <= i < |rates| ==>
      Lookup(Upsert(t, PairOf, CurrentRows(base, rates, provider, now)), PairOf, (base, rates[i].0))
      == Some(ExchangeRate(base, rates[i].0, CarriedRate(base, rates[i].0, rates[i].1), provider, now))
    ensures forall c :: (forall i :: 0 <= i < |rates| ==> rates[i].0 != c) ==>
      Lookup(Upsert(t, PairOf, CurrentRows(base, rates, provider, now)), PairOf, (base, c)) == Lookup(t, PairOf, (base, c))
  {
    var rows := CurrentRows(base, rates, provider, now);
    var u := Upsert(t, PairOf, rows);
    UpsertLookup(t, PairOf, rows, (base, base));
    forall i | 0 <= i < |rates|
      ensures Lookup(u, PairOf, (base, rates[i].0)) == Some(ExchangeRate(base, rates[i].0, CarriedRate(base, rates[i].0, rates[i].1), provider, now))
    {
      CurrentRowsCarry(base, rates, provider, now, rates[i].0);
      UpsertLookup(t, PairOf, rows, (base, rates[i].0));
    }
    forall c | forall i :: 0 <= i < |rates| ==> rates[i].0 != c
      ensures Lookup(u, PairOf, (base, c)) == Lookup(t, PairOf, (base, c))
    {
      CurrentRowsCarry(base, rates, provider, now, c);
      UpsertLookup(t, PairOf, rows, (base, c));
    }
  }

  /**
   * After `updateExchangeRatesHistory($base, $rates, $dateTime)` the key
   * `(base, code, dateTime)` of every entry holds that entry's row with the
   * carried rate, and every such key of a code the array does not quote is
   * as it was.
   */
  lemma UpdatedForwardHistory(t: seq<RateHistory>, base: Code, rates: Rates, dateTime: Instant, provider: Option<string>, now: Instant)
    requires UniqueKeys(t, HistoryKeyOf) && NonZeroRates(rates) && DistinctCodes(rates)
    ensures UniqueKeys(Upsert(t, HistoryKeyOf, HistoryRows(base, rates, dateTime, provider, now)), HistoryKeyOf)
    ensures forall i :: 0 <= i < |rates| ==>
      Lookup(Upsert(t, HistoryKeyOf, HistoryRows(base, rates, dateTime, provider, now)), HistoryKeyOf, (base, rates[i].0, dateTime))
      == Some(RateHistory(base, rates[i].0, CarriedRate(base, rates[i].0, rates[i].1), provider, dateTime, now))
    ensures forall c :: (forall i :: 0 <= i < |rates| ==> rates[i].0 != c) ==>
      Lookup(Upsert(t, HistoryKeyOf, HistoryRows(base, rates, dateTime, provider, now)), HistoryKeyOf, (base, c, dateTime))
      == Lookup(t, HistoryKeyOf, (base, c, dateTime))
  {
    var rows := HistoryRows(base, rates, dateTime, provider, now);
    var u := Upsert(t, HistoryKeyOf, rows);
    UpsertLookup(t, HistoryKeyOf, rows, (base, base, dateTime));
    forall i | 0 <= i < |rates|
      ensures Lookup(u, HistoryKeyOf, (base, rates[i].0, dateTime))
        == Some(RateHistory(base, rates[i].0, CarriedRate(base, rates[i].0, rates[i].1), provider, dateTime, now))
    {
      HistoryRowsCarry(base, rates, dateTime, provider, now, rates[i].0);
      UpsertLookup(t, HistoryKeyOf, rows, (base, rates[i].0, dateTime));
    }
    forall c | forall i :: 0 <= i < |rates| ==> rates[i].0 != c
      ensures Lookup(u, HistoryKeyOf, (base, c, dateTime)) == Lookup(t, HistoryKeyOf, (base, c, dateTime))
    {
      HistoryRowsCarry(base, rates, dateTime, provider, now, c);
      UpsertLookup(t, HistoryKeyOf, rows, (base, c, dateTime));
    }
  }

  /** The rows of a table whose base is `base`, in table order: `where(compact('base_currency_code'))->get()`. */
  function RowsWithBase(t: seq<ExchangeRate>, base: Code): (r: seq<ExchangeRate>)
    ensures forall i :: 0 <= i < |r| ==> r[i] in t && r[i].base == base
    ensures forall i :: 0 <= i < |t| && t[i].base == base ==> t[i] in r
  {
    Filter(t, (x: ExchangeRate) => x.base == base)
  }

  /**
   * Starting from a table with no row of `base`, `updateExchangeRates($base,
   * $rates)` followed by `getExchangeRates($base)` yields exactly one row
   * per entry, each with its entry's carried rate.
   */
  lemma UpdateThenGetExchangeRates(t: seq<ExchangeRate>, base: Code, rates: Rates, provider: Option<string>, now: Instant)
    requires UniqueKeys(t, PairOf) && NonZeroRates(rates) && DistinctCodes(rates)
    requires forall c :: Lookup(t, PairOf, (base, c)) == None
    ensures forall x :: x in RowsWithBase(Upsert(t, PairOf, CurrentRows(base, rates, provider, now)), base) ==>
      exists i :: 0 <= i < |rates| && x == ExchangeRate(base, rates[i].0, CarriedRate(base, rates[i].0, rates[i].1), provider, now)
    ensures forall i :: 0 <= i < |rates| ==>
      ExchangeRate(base, rates[i].0, CarriedRate(base, rates[i].0, rates[i].1), provider, now)
      in RowsWithBase(Upsert(t, PairOf, CurrentRows(base, rates, provider, now)), base)
  {
    var rows := CurrentRows(base, rates, provider, now);
    var u := Upsert(t, PairOf, rows);
    var g := RowsWithBase(u, base);
    UpdatedForwardRates(t, base, rates, provider, now);
    forall x | x in g
      ensures exists i :: 0 <= i < |rates| && x == ExchangeRate(base, rates[i].0, CarriedRate(base, rates[i].0, rates[i].1), provider, now)
    {
      UpsertNewKey(t, PairOf, rows, x);
      CurrentRowsCarry(base, rates, provider, now, x.target);
      var i :| 0 <= i < |rates| && rates[i].0 == x.target;
    }
    forall i | 0 <= i < |rates|
      ensures ExchangeRate(base, rates[i].0, CarriedRate(base, rates[i].0, rates[i].1), provider, now) in g
    {
      var x := ExchangeRate(base, rates[i].0, CarriedRate(base, rates[i].0, rates[i].1), provider, now);
      assert Lookup(u, PairOf, (base, rates[i].0)) == Some(x);
      var j :| 0 <= j < |u| && u[j] == x;
    }
  }

  lemma BulkOfTwo(d1: ExchangeRatesDto, d2: ExchangeRatesDto, provider: Option<string>, now: Instant)
    requires NonZeroRates(d1.rates) && NonZeroRates(d2.rates)
    ensures AllWritable([Dto(d1), Dto(d2)], false)
    ensures BulkCurrentRows([Dto(d1), Dto(d2)], provider, now)
      == CurrentRows(d1.base, d1.rates, provider, now) + CurrentRows(d2.base, d2.rates, provider, now)
  {
    var items := [Dto(d1), Dto(d2)];
    assert items[..1] == [Dto(d1)];
    assert [Dto(d1)][..0] == [];
    assert AllWritable([Dto(d1)], false);
    assert BulkCurrentRows([Dto(d1)], provider, now) == CurrentRows(d1.base, d1.rates, provider, now);
    assert AllWritable(items, false);
    assert BulkCurrentRows(items, provider, now)
      == BulkCurrentRows(items[..1], provider, now) + CurrentRows(d2.base, d2.rates, provider, now);
  }

  lemma CurrentRowsOfOne(base: Code, code: Code, rate: real, provider: Option<string>, now: Instant)
    requires rate != 0.0
    ensures CurrentRows(base, [(code, rate)], provider, now)
      == [ExchangeRate(base, code, rate, provider, now), ExchangeRate(code, base, Inverse(rate) as real, provider, now)]
  {
    assert [(code, rate)][..0] == [];
  }

  /**
   * A bulk update whose DTOs quote a pair in both directions keeps the
   * inverse row written last: with USD→EUR 0.83 followed by EUR→USD 1.15,
   * the pair USD→EUR ends up holding 0, the inverse of 1.15 cut to an
   * integer, and not 0.83.
   */
  lemma ReciprocalBulkOverwrite(provider: Option<string>, now: Instant)
    ensures AllWritable([Dto(ExchangeRatesDto("USD", [("EUR", 0.83)])), Dto(ExchangeRatesDto("EUR", [("USD", 1.15)]))], false)
    ensures Lookup(Upsert([], PairOf, BulkCurrentRows([Dto(ExchangeRatesDto("USD", [("EUR", 0.83)])), Dto(ExchangeRatesDto("EUR", [("USD", 1.15)]))], provider, now)),
                   PairOf, ("USD", "EUR"))
      == Some(ExchangeRate("USD", "EUR", 0.0, provider, now))
  {
    var d1, d2 := ExchangeRatesDto("USD", [("EUR", 0.83)]), ExchangeRatesDto("EUR", [("USD", 1.15)]);
    BulkOfTwo(d1, d2, provider, now);
    CurrentRowsOfOne("USD", "EUR", 0.83, provider, now);
    CurrentRowsOfOne("EUR", "USD", 1.15, provider, now);
    InverseOfCommonRates(1.15);
    var rows := BulkCurrentRows([Dto(d1), Dto(d2)], provider, now);
    assert rows[3] == ExchangeRate("USD", "EUR", 0.0, provider, now);
    LastWithKeyAt(rows, PairOf, ("USD", "EUR"), 3);
    UpsertLookup([], PairOf, rows, ("USD", "EUR"));
  }
}
