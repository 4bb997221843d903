/**
 * `exchange-rates:backfill` (`BackfillExchangeRatesCommand::handle`):
 * stores the history of the first of January of every year in a range,
 * for a list of currencies, one bulk request per year, and counts what
 * succeeded and what failed. The service's bulk store is a parameter.
 */
module Backfill {
  import opened Wrappers
  import opened Calendar
  import opened Dtos
  import opened Collections

  const Success := 0
  const Failure := 1

  const DefaultCurrencies: seq<Code> := ["USD", "EUR", "GBP"]
  const StartAfterEndMessage := "Start year cannot be greater than end year"
  const NotHistoricalMessage := "Selected service does not support historical exchange rates"

  /**
   * The command line: `--currency=*` (possibly none), `--start-year=`,
   * `--end-year=` and `--service=`, each `None` when absent.
   */
  datatype Options = Options(currency: seq<Code>, startYear: Option<int>, endYear: Option<int>, service: Option<string>)

  /**
   * A service as the command uses it: whether it implements the
   * historical interface, and what its bulk historical store answers for
   * one batch, as the `count()` of its result or the exception it throws.
   */
  datatype Service = Service(supportsHistorical: bool, storeBulk: seq<HistoricalBaseCurrencyDto> -> Result<nat>)

  datatype Summary = Summary(total: nat, successful: nat, failed: nat)

  /** Either a refusal before any store, or the counts of a completed run. */
  datatype Report = Refused(message: string) | Completed(summary: Summary)

  /** A year option `?:` its default: an absent option or `0` counts as false. */
  function OrElse(o: Option<int>, default: int): (y: int)
    ensures o.Some? && o.value != 0 ==> y == o.value
    ensures o.None? || o.value == 0 ==> y == default
  {
    if o.Some? && o.value != 0 then o.value else default
  }

  function Currencies(o: Options): (cs: seq<Code>)
    ensures cs != []
    ensures o.currency != [] ==> cs == o.currency
  {
    if o.currency == [] then DefaultCurrencies else o.currency
  }

  function EndYear(o: Options, currentYear: int): int {
    OrElse(o.endYear, currentYear)
  }

  function StartYear(o: Options, currentYear: int): int {
    OrElse(o.startYear, EndYear(o, currentYear) - 5)
  }

  /** `--service=` chooses a service from the container, when it is set and not `"0"`. */
  predicate NamesService(o: Options) {
    o.service.Some? && o.service.value != "" && o.service.value != "0"
  }

  /** `range($start, $end)` for `$start <= $end`. */
  function Years(start: int, end: int): (ys: seq<int>)
    requires start <= end
    ensures |ys| == end - start + 1
    ensures forall i :: 0 <= i < |ys| ==> ys[i] == start + i
    decreases end - start
  {
    if start == end then [start] else [start] + Years(start + 1, end)
  }

  function Request(currency: Code, year: int): HistoricalBaseCurrencyDto {
    HistoricalBaseCurrencyDto(currency, StartOfYear(year))
  }

  /** The requests of one year, one per currency in order. */
  function YearBatch(currencies: seq<Code>, year: int): (r: seq<HistoricalBaseCurrencyDto>)
    ensures |r| == |currencies| && forall i :: 0 <= i < |currencies| ==> r[i] == Request(currencies[i], year)
  {
    MapSeq(currencies, (c: Code) => Request(c, year))
  }

  /** The requests for one currency, one per year in order. */
  function Row(currency: Code, years: seq<int>): (r: seq<HistoricalBaseCurrencyDto>)
    ensures |r| == |years| && forall i :: 0 <= i < |years| ==> r[i] == Request(currency, years[i])
  {
    MapSeq(years, (y: int) => Request(currency, y))
  }

  /** The nested loops: currencies outside, years inside. */
  function Plan(currencies: seq<Code>, years: seq<int>): seq<HistoricalBaseCurrencyDto>
    decreases |currencies|
  {
    if currencies == [] then []
    else Plan(currencies[..|currencies| - 1], years) + Row(currencies[|currencies| - 1], years)
  }

  function BatchYear(request: HistoricalBaseCurrencyDto): int {
    request.dateTime.year
  }

  /** `collect($historicalDtos)->groupBy(fn($dto) => $dto->getDateTime()->year)`. */
  function Batches(plan: seq<HistoricalBaseCurrencyDto>): seq<Group<int, HistoricalBaseCurrencyDto>> {
    GroupBy(plan, BatchYear)
  }

  /** The counters after the batch loop: successes add the result's count, failures the batch size. */
  function Tally(batches: seq<Group<int, HistoricalBaseCurrencyDto>>, store: seq<HistoricalBaseCurrencyDto> -> Result<nat>)
    : (c: (nat, nat))
    ensures c.1 == 0 <==> forall i :: 0 <= i < |batches| ==> store(batches[i].items).Ok? || batches[i].items == []
    decreases |batches|
  {
    if batches == [] then (0, 0)
    else
      var n := |batches| - 1;
      var c := Tally(batches[..n], store);
      assert forall i :: 0 <= i < n ==> batches[..n][i] == batches[i];
      match store(batches[n].items)
      case Ok(count) => (c.0 + count, c.1)
      case Err(_) => (c.0, c.1 + |batches[n].items|)
  }

  /**
   * `handle`: the defaults, the year check, the choice of service and its
   * historical support, then the batches and their counters.
   */
  function HandleOutcome(o: Options, currentYear: int, injected: Service, app: string -> Result<Service>): Result<Report> {
    var end := EndYear(o, currentYear);
    var start := StartYear(o, currentYear);
    if start > end then Ok(Refused(StartAfterEndMessage))
    else
      var chosen := if NamesService(o) then app(o.service.value) else Ok(injected);
      match chosen
      case Err(e) => Err(e)
      case Ok(service) =>
        if !service.supportsHistorical then Ok(Refused(NotHistoricalMessage))
        else
          var plan := Plan(Currencies(o), Years(start, end));
          var c := Tally(Batches(plan), service.storeBulk);
          Ok(Completed(Summary(|plan|, c.0, c.1)))
  }

  /** `self::FAILURE` for a refusal or any failed batch, `self::SUCCESS` otherwise. */
  function ExitCode(report: Report): (code: int)
    ensures code == Success <==> report.Completed? && report.summary.failed == 0
    ensures code == Success || code == Failure
  {
    if report.Refused? || report.summary.failed > 0 then Failure else Success
  }

  // ---------------------------------------------------------------- lemmas

  /** The total number of operations is the number of currencies times the number of years. */
  lemma {:induction false} PlanSize(currencies: seq<Code>, years: seq<int>)
    ensures |Plan(currencies, years)| == |currencies| * |years|
    decreases |currencies|
  {
    if currencies != [] {
      var n := |currencies| - 1;
      PlanSize(currencies[..n], years);
      assert |Plan(currencies, years)| == n * |years| + |years|;
      assert n * |years| + |years| == (n + 1) * |years|;
    }
  }

  /** The years of a plan, in order: the year list once per currency. */
  lemma {:induction false} PlanYears(currencies: seq<Code>, years: seq<int>)
    requires currencies != [] && NoDuplicates(years)
    ensures Distinct(MapSeq(Plan(currencies, years), BatchYear)) == years
    decreases |currencies|
  {
    var n := |currencies| - 1;
    var rest := Plan(currencies[..n], years);
    var row := Row(currencies[n], years);
    MapSeqAppend(rest, row, BatchYear);
    assert MapSeq(row, BatchYear) == years;
    if n == 0 {
      assert rest == [];
      assert MapSeq(rest, BatchYear) + years == years;
      DistinctOfUnique(years);
    } else {
      PlanYears(currencies[..n], years);
      forall y | y in years ensures y in MapSeq(rest, BatchYear) {
        DistinctMembers(MapSeq(rest, BatchYear), y);
      }
      DistinctAbsorbs(MapSeq(rest, BatchYear), years);
    }
  }

  /** In one currency's row, exactly one request falls in a year of the list. */
  lemma {:induction false} RowOfYear(currency: Code, years: seq<int>, y: int)
    requires NoDuplicates(years) && y in years
    ensures WithKey(Row(currency, years), BatchYear, y) == [Request(currency, y)]
    decreases |years|
  {
    var n := |years| - 1;
    var r := Row(currency, years);
    assert r[..n] == Row(currency, years[..n]);
    assert NoDuplicates(years[..n]);
    if years[n] == y {
      assert y !in years[..n] by {
        forall i | 0 <= i < n ensures years[..n][i] != y {
          assert years[..n][i] == years[i];
        }
      }
      assert y !in MapSeq(Row(currency, years[..n]), BatchYear) by {
        assert MapSeq(Row(currency, years[..n]), BatchYear) == years[..n];
      }
      WithKeyAbsent(Row(currency, years[..n]), BatchYear, y);
    } else {
      assert y in years[..n] by {
        var i :| 0 <= i < |years| && years[i] == y;
        assert i < n && years[..n][i] == y;
      }
      RowOfYear(currency, years[..n], y);
    }
  }

  /** A year's batch holds one request per currency, in the currencies' order. */
  lemma {:induction false} PlanOfYear(currencies: seq<Code>, years: seq<int>, y: int)
    requires NoDuplicates(years) && y in years
    ensures WithKey(Plan(currencies, years), BatchYear, y) == YearBatch(currencies, y)
    decreases |currencies|
  {
    if currencies != [] {
      var n := |currencies| - 1;
      WithKeyAppend(Plan(currencies[..n], years), Row(currencies[n], years), BatchYear, y);
      PlanOfYear(currencies[..n], years, y);
      RowOfYear(currencies[n], years, y);
      assert YearBatch(currencies, y) == YearBatch(currencies[..n], y) + [Request(currencies[n], y)];
    }
  }

  lemma BatchOfYear(currencies: seq<Code>, years: seq<int>, bs: seq<Group<int, HistoricalBaseCurrencyDto>>, i: nat, y: int)
    requires bs == Batches(Plan(currencies, years))
    requires NoDuplicates(years) && Keys(bs) == years
    requires i < |bs| && years[i] == y
    ensures bs[i].items == YearBatch(currencies, y)
  {
    var plan := Plan(currencies, years);
    GroupByItems(plan, BatchYear);
    assert Keys(bs)[i] == bs[i].key;
    assert bs[i].items == WithKey(plan, BatchYear, y);
    PlanOfYear(currencies, years, y);
  }

  /**
   * The batches of a run: one per year from the start year to the end
   * year, in order, the batch of a year holding that year's request for
   * every currency in the given order.
   */
  lemma PlanBatches(currencies: seq<Code>, start: int, end: int)
    requires currencies != [] && start <= end
    ensures Keys(Batches(Plan(currencies, Years(start, end)))) == Years(start, end)
    ensures forall i :: 0 <= i < |Batches(Plan(currencies, Years(start, end)))| ==>
      Batches(Plan(currencies, Years(start, end)))[i].items
        == YearBatch(currencies, Batches(Plan(currencies, Years(start, end)))[i].key)
  {
    var ys := Years(start, end);
    assert NoDuplicates(ys);
    GroupByKeys(Plan(currencies, ys), BatchYear);
    PlanYears(currencies, ys);
    var bs := Batches(Plan(currencies, ys));
    forall i | 0 <= i < |bs| ensures bs[i].items == YearBatch(currencies, bs[i].key) {
      assert Keys(bs)[i] == bs[i].key;
      BatchOfYear(currencies, ys, bs, i, bs[i].key);
    }
  }

  lemma FailureHasYear(currencies: seq<Code>, start: int, end: int, store: seq<HistoricalBaseCurrencyDto> -> Result<nat>)
    requires currencies != [] && start <= end
    requires Tally(Batches(Plan(currencies, Years(start, end))), store).1 > 0
    ensures exists y :: start <= y <= end && store(YearBatch(currencies, y)).Err?
  {
    var ys := Years(start, end);
    var bs := Batches(Plan(currencies, ys));
    PlanBatches(currencies, start, end);
    var i :| 0 <= i < |bs| && !(store(bs[i].items).Ok? || bs[i].items == []);
    assert bs[i].items == YearBatch(currencies, bs[i].key);
    assert Keys(bs)[i] == bs[i].key;
    var y := ys[i];
    assert y == start + i && y == bs[i].key;
    assert start <= y <= end && store(YearBatch(currencies, y)).Err?;
  }

  lemma YearFailureCounts(currencies: seq<Code>, start: int, end: int, store: seq<HistoricalBaseCurrencyDto> -> Result<nat>, y: int)
    requires currencies != [] && start <= y <= end
    requires store(YearBatch(currencies, y)).Err?
    ensures Tally(Batches(Plan(currencies, Years(start, end))), store).1 > 0
  {
    var ys := Years(start, end);
    var bs := Batches(Plan(currencies, ys));
    PlanBatches(currencies, start, end);
    var i := y - start;
    assert 0 <= i < |ys| && ys[i] == y;
    assert |bs| == |Keys(bs)| == |ys|;
    assert bs[i].key == Keys(bs)[i] == y;
    assert bs[i].items == YearBatch(currencies, y);
    assert store(bs[i].items).Err? && |bs[i].items| == |currencies| > 0;
    TallyCountsFailure(bs, store, i);
  }

  /** A non-empty batch whose store throws makes the failure counter positive. */
  lemma TallyCountsFailure(batches: seq<Group<int, HistoricalBaseCurrencyDto>>, store: seq<HistoricalBaseCurrencyDto> -> Result<nat>, i: nat)
    requires i < |batches| && store(batches[i].items).Err? && batches[i].items != []
    ensures Tally(batches, store).1 > 0
  {
    assert !(store(batches[i].items).Ok? || batches[i].items == []);
  }

  /** Some failure is counted exactly when the bulk store of some year's batch throws. */
  lemma FailuresIffSomeYearThrows(currencies: seq<Code>, start: int, end: int, store: seq<HistoricalBaseCurrencyDto> -> Result<nat>)
    requires currencies != [] && start <= end
    ensures Tally(Batches(Plan(currencies, Years(start, end))), store).1 > 0 <==>
      exists y :: start <= y <= end && store(YearBatch(currencies, y)).Err?
  {
    if Tally(Batches(Plan(currencies, Years(start, end))), store).1 > 0 {
      FailureHasYear(currencies, start, end, store);
    } else if y :| start <= y <= end && store(YearBatch(currencies, y)).Err? {
      YearFailureCounts(currencies, start, end, store, y);
    }
  }

  /** A completed run exits with `FAILURE` exactly when the bulk store of some year's batch throws. */
  lemma ExitFailsIffSomeYearThrows(o: Options, currentYear: int, injected: Service, app: string -> Result<Service>)
    requires HandleOutcome(o, currentYear, injected, app).Ok?
    requires HandleOutcome(o, currentYear, injected, app).value.Completed?
    ensures var service := if NamesService(o) then app(o.service.value).value else injected;
      var start, end := StartYear(o, currentYear), EndYear(o, currentYear);
      start <= end &&
      (ExitCode(HandleOutcome(o, currentYear, injected, app).value) == Failure <==>
        exists y :: start <= y <= end && service.storeBulk(YearBatch(Currencies(o), y)).Err?)
  {
    var service := if NamesService(o) then app(o.service.value).value else injected;
    FailuresIffSomeYearThrows(Currencies(o), StartYear(o, currentYear), EndYear(o, currentYear), service.storeBulk);
  }

  // ---------------------------------------------------------------- loops

  /** The nested `foreach` that builds `$historicalDtos`. */
  method BuildPlan(currencies: seq<Code>, years: seq<int>) returns (plan: seq<HistoricalBaseCurrencyDto>)
    ensures plan == Plan(currencies, years)
  {
    plan := [];
    var i := 0;
    while i < |currencies|
      invariant 0 <= i <= |currencies|
      invariant plan == Plan(currencies[..i], years)
    {
      var j := 0;
      ghost var before := plan;
      while j < |years|
        invariant 0 <= j <= |years|
        invariant plan == before + Row(currencies[i], years[..j])
      {
        assert Row(currencies[i], years[..j + 1]) == Row(currencies[i], years[..j]) + [Request(currencies[i], years[j])];
        plan := plan + [Request(currencies[i], years[j])];
        j := j + 1;
      }
      assert years[..j] == years;
      assert currencies[..i + 1][..i] == currencies[..i];
      i := i + 1;
    }
    assert currencies[..i] == currencies;
  }

  /** The counters of the per-year loop. */
  method CountBatches(batches: seq<Group<int, HistoricalBaseCurrencyDto>>, store: seq<HistoricalBaseCurrencyDto> -> Result<nat>)
    returns (successCount: nat, failureCount: nat)
    ensures (successCount, failureCount) == Tally(batches, store)
  {
    successCount, failureCount := 0, 0;
    var i := 0;
    while i < |batches|
      invariant 0 <= i <= |batches|
      invariant (successCount, failureCount) == Tally(batches[..i], store)
    {
      assert batches[..i + 1][..i] == batches[..i];
      var results := store(batches[i].items);
      if results.Ok? {
        successCount := successCount + results.value;
      } else {
        failureCount := failureCount + |batches[i].items|;
      }
      i := i + 1;
    }
    assert batches[..i] == batches;
  }

  method Handle(o: Options, currentYear: int, injected: Service, app: string -> Result<Service>) returns (r: Result<Report>)
    ensures r == HandleOutcome(o, currentYear, injected, app)
  {
    var currencies := Currencies(o);
    var endYear := EndYear(o, currentYear);
    var startYear := StartYear(o, currentYear);
    if startYear > endYear {
      return Ok(Refused(StartAfterEndMessage));
    }
    var service := injected;
    if NamesService(o) {
      var made := app(o.service.value);
      if made.Err? {
        return Err(made.error);
      }
      service := made.value;
    }
    if !service.supportsHistorical {
      return Ok(Refused(NotHistoricalMessage));
    }
    var plan := BuildPlan(currencies, Years(startYear, endYear));
    var successCount, failureCount := CountBatches(Batches(plan), service.storeBulk);
    r := Ok(Completed(Summary(|plan|, successCount, failureCount)));
  }
}
