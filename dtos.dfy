/**
 * The data-transfer objects: the rate carriers handed to the repository and
 * the key objects whose string form (`__toString`) is the lookup key of the
 * repository's bulk queries. A PHP subclass is a second constructor of the
 * same datatype, so an `instanceof` test of the parent class accepts both.
 */
module Dtos {
  import opened Calendar
  import opened Collections

  /** A currency code such as "USD". */
  type Code = string

  /** An ordered PHP array `code => rate` (`$exchange_rates`). Rates are exact decimals. */
  type Rates = seq<(Code, real)>

  /** The codes of a rate array, in its order. */
  function RateCodes(rates: Rates): (r: seq<Code>)
    ensures |r| == |rates|
    ensures forall i :: 0 <= i < |rates| ==> r[i] == rates[i].0
    decreases |rates|
  {
    if rates == [] then [] else [rates[0].0] + RateCodes(rates[1..])
  }

  /** `ExchangeRatesDto`, and its subclass `HistoricalExchangeRatesDto`, which adds a date. */
  datatype ExchangeRatesDto =
    | ExchangeRatesDto(base: Code, rates: Rates)
    | HistoricalExchangeRatesDto(base: Code, rates: Rates, dateTime: Instant)

  /** A member of the untyped PHP array a bulk update receives: a DTO, or any other value. */
  datatype BulkItem = Dto(dto: ExchangeRatesDto) | NotADto

  /** `CurrenciesPairDto`, and its subclass `HistoricalCurrenciesPairDto`, which adds a date. */
  datatype CurrenciesPairDto =
    | CurrenciesPairDto(base: Code, target: Code)
    | HistoricalCurrenciesPairDto(base: Code, target: Code, dateTime: Instant)

  /** `HistoricalBaseCurrencyDto`: one base currency on one day. */
  datatype HistoricalBaseCurrencyDto = HistoricalBaseCurrencyDto(base: Code, dateTime: Instant)

  /** The `'_'` that joins the parts of every key string. */
  const Separator: char := '_'

  /**
   * `(string) $pair`: "BASE_TARGET" for a plain pair and, by the subclass's
   * override, "BASE_TARGET_Y-m-d" for a historical pair.
   */
  function PairToString(p: CurrenciesPairDto): string {
    match p
    case CurrenciesPairDto(b, t) => b + [Separator] + t
    case HistoricalCurrenciesPairDto(b, t, d) => b + [Separator] + t + [Separator] + FormatDate(DateOf(d))
  }

  /** `(string) $historicalBaseCurrency`: "BASE_Y-m-d". */
  function BaseToString(h: HistoricalBaseCurrencyDto): string {
    h.base + [Separator] + FormatDate(DateOf(h.dateTime))
  }

  /** Currency codes never contain the key separator (ISO 4217 codes are three letters). */
  predicate PlainCode(c: Code) {
    Separator !in c
  }

  /**
   * A plain pair's key names the pair: two keys are equal exactly when
   * the bases and the targets are, provided the bases hold no `'_'`.
   */
  lemma PairKeyNamesPair(p: CurrenciesPairDto, q: CurrenciesPairDto)
    requires p.CurrenciesPairDto? && q.CurrenciesPairDto?
    requires PlainCode(p.base) && PlainCode(q.base)
    ensures PairToString(p) == PairToString(q) <==> p.base == q.base && p.target == q.target
  {
    if PairToString(p) == PairToString(q) {
      SplitAtSeparator(p.base, p.target, q.base, q.target, Separator);
    }
  }

  lemma DateKeyHasNoSeparator(d: Date)
    requires d.year >= 0
    ensures Separator !in FormatDate(d)
  {
    var y, m, e := FormatYear(d.year), Format2(d.month), Format2(d.day);
    assert FormatDate(d) == y + "-" + m + "-" + e;
    DigitsHaveNo(y, Separator);
    DigitsHaveNo(m, Separator);
    DigitsHaveNo(e, Separator);
  }

  /**
   * A historical pair's key names the pair and the calendar day: equal
   * keys mean the same base, target and day, whatever the time of day,
   * provided the codes hold no `'_'` and the years are not negative.
   */
  lemma HistoricalPairKeyNamesPairAndDay(p: CurrenciesPairDto, q: CurrenciesPairDto)
    requires p.HistoricalCurrenciesPairDto? && q.HistoricalCurrenciesPairDto?
    requires PlainCode(p.base) && PlainCode(q.base) && PlainCode(p.target) && PlainCode(q.target)
    requires p.dateTime.year >= 0 && q.dateTime.year >= 0
    ensures PairToString(p) == PairToString(q) <==>
      p.base == q.base && p.target == q.target && DateOf(p.dateTime) == DateOf(q.dateTime)
  {
    var dp, dq := FormatDate(DateOf(p.dateTime)), FormatDate(DateOf(q.dateTime));
    FormatDateInjective(DateOf(p.dateTime), DateOf(q.dateTime));
    if PairToString(p) == PairToString(q) {
      assert PairToString(p) == p.base + [Separator] + (p.target + [Separator] + dp);
      assert PairToString(q) == q.base + [Separator] + (q.target + [Separator] + dq);
      SplitAtSeparator(p.base, p.target + [Separator] + dp, q.base, q.target + [Separator] + dq, Separator);
      SplitAtSeparator(p.target, dp, q.target, dq, Separator);
    }
  }

  /**
   * A base-and-day key names the base and the calendar day: the time of
   * day is dropped, and nothing else is.
   */
  lemma BaseKeyNamesBaseAndDay(h: HistoricalBaseCurrencyDto, k: HistoricalBaseCurrencyDto)
    requires PlainCode(h.base) && PlainCode(k.base)
    requires h.dateTime.year >= 0 && k.dateTime.year >= 0
    ensures BaseToString(h) == BaseToString(k) <==>
      h.base == k.base && DateOf(h.dateTime) == DateOf(k.dateTime)
  {
    FormatDateInjective(DateOf(h.dateTime), DateOf(k.dateTime));
    if BaseToString(h) == BaseToString(k) {
      SplitAtSeparator(h.base, FormatDate(DateOf(h.dateTime)), k.base, FormatDate(DateOf(k.dateTime)), Separator);
    }
  }

  /** The key of the repository tests' sample request: USD on 15 January 2024 at 10:30. */
  lemma BaseKeySample()
    ensures BaseToString(HistoricalBaseCurrencyDto("USD", Instant(2024, 1, 15, 10 * 3600 + 30 * 60))) == "USD_2024-01-15"
  {
    FormatDateSample();
  }
}
