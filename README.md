# Exchange rates: a Dafny model

This project models the core of the Laravel package
`bright-creations/exchange-rates`. The package stores exchange rates in two
database tables. `currency_exchange_rates` holds the current rate of each
pair, keyed by base and target. `currency_exchange_rates_history` holds
dated rates, keyed by base, target and `date_time`.

The model covers these parts of the package:

- The **repository** (`CurrencyExchangeRateRepository`). Every update writes
  one forward row and one inverse row per rate entry, in a single upsert.
  Reads filter the tables and group the rows they find.
- The three **provider adapters**: ExchangeRate-API, Open Exchange Rates
  and World Bank. Each fetches a response, writes it through the repository
  and returns the stored rows as models. The ExchangeRate-API and Open
  Exchange Rates adapters also have read-through getters.
- The **fallback service**. It tries the configured adapters in order and
  keeps the first adapter that gives a real answer.
- The **backfill command**. It plans one request per currency and year,
  sends one batch per year, counts successes and failures and sets the exit
  code.
- The **model constructors** and `createOrUpdate`.
- The `EnumHelpers` trait and its one user, `ExchangeRateProvidersEnum`.
- The three DTOs whose string forms serve as lookup keys.

The modules are:

| module | file | models |
|---|---|---|
| `Wrappers` | wrappers.dfy | `Option`, `Result` and the exception kinds |
| `Calendar` | calendar.dfy | instants, calendar days, `format('Y-m-d')`, Unix timestamps |
| `Collections` | collections.dfy | filters, `array_unique`, Laravel `groupBy` on one, two and three keys, `implode` and its inverse `explode`, `strpos` |
| `Dtos` | dtos.dfy | the rate DTOs and the key DTOs with their `__toString` |
| `Upserts` | upserts.dfy | a keyed table and the upsert applied in list order |
| `Models` | models.dfy | the two Eloquent models, `constructFrom*Dto`, `createOrUpdate`, the database |
| `RateRows` | rate_rows.dfy | the rows each repository update builds, and the `1 / rate` inverse |
| `Repository` | repository.dfy | `CurrencyExchangeRateRepository` |
| `AdapterSupport` | adapter_support.dfy | what the three adapters share: fetching a list, writing, building models |
| `ExchangeRateApi` | exchange_rate_api.dfy | `ExchangeRateApiService` |
| `OpenExchangeRates` | open_exchange_rates.dfy | `OpenExchangeRateService` |
| `WorldBank` | world_bank.dfy | `WorldBankExchangeRateApiService` |
| `Fallback` | fallback.dfy | `FallbackExchangeRateService` |
| `Backfill` | backfill.dfy | `BackfillExchangeRatesCommand::handle` |
| `EnumHelpers` | enum_helpers.dfy | the `EnumHelpers` trait over a list of cases |
| `ProvidersEnum` | providers_enum.dfy | `ExchangeRateProvidersEnum` |

Modelling choices:

- **Database.** The database is a `Models.Database` object. It holds two
  sequences of rows in insertion order, and its invariant is that each
  table's unique key occurs at most once.
- **Adapters.** Each adapter is a class that holds the repository and an
  HTTP oracle. The oracle is a function from request path to a parsed
  response or an error. The adapter keeps a `sent` log of the paths it has
  requested.
- **Store methods.** Every adapter `store*` method is stated against an
  outcome function. Given the tables before the call, the function gives
  the tables after it and the returned value.
- **Rates.** Rates are exact `real`s, as `BigDecimal` is exact.
- **The clock and the container.** `Carbon::now()` is a parameter. The
  service container (`app()->make`) is a function from class name to an
  instance or an error.

## Model

| member | source | states |
|---|---|---|
| Calendar.StartOfYear | src/Console/Commands/BackfillExchangeRatesCommand.php:85 | `Carbon::create($year, 1, 1)` is a proper instant of that year, and no proper instant of the year comes before it |
| Calendar.StartOfDay | src/Concretes/ExchangeRateApiService.php:251 | `Carbon::create(y, m, d)` falls on that calendar day, and no instant of the day comes before it |
| Calendar.OrderIsTotal | src/Concretes/Repositories/CurrencyExchangeRateRepository.php:269-286 | ordering by `date_time` is a strict total order, and `<=` is antisymmetric |
| Calendar.FromUnix | src/Concretes/ExchangeRateApiService.php:105 | `Carbon::createFromTimestamp(ts)` keeps the time of day `ts mod 86400` (UTC) |
| Calendar.FromUnixEpoch | src/Concretes/OpenExchangeRateService.php:97 | timestamp 0 is midnight on 1 January 1970 |
| Calendar.FromUnixSample | src/Concretes/OpenExchangeRateService.php:97 | timestamp 1585267200 is midnight on 27 March 2020 |
| Calendar.IntToString | src/Concretes/ExchangeRateApiService.php:198-202 | string interpolation of an integer: digits that read back as the integer, after a `-` exactly when it is negative |
| Calendar.ParseNatToString | src/Concretes/ExchangeRateApiService.php:198-202 | the decimal digits of a natural number read back as that number |
| Calendar.ParsePadLeft | src/Concretes/OpenExchangeRateService.php:134-136 | zero-padding (`format('m')`, `format('d')`) does not change the number the digits denote |
| Calendar.FormatYear | src/Concretes/OpenExchangeRateService.php:134 | `format('Y')` of a non-negative year is digits that read back as the year, exactly four of them below 10000; a negative year gets a `-` before the digits of its magnitude |
| Calendar.Format2 | src/Concretes/OpenExchangeRateService.php:135-136 | `format('m')` and `format('d')` are digits that read back as the number, exactly two of them below 100 |
| Collections.FirstIndexOfSeparator | src/DTOs/CurrenciesPairDto.php:22-25 | in `a . '_' . b` with no `'_'` in `a`, the first `'_'` sits right after `a` |
| Collections.SplitAtSeparator | src/DTOs/CurrenciesPairDto.php:22-25 | `a . '_' . b` determines `a` and `b` when `a` holds no `'_'` |
| Calendar.FormatDateInjective | src/DTOs/HistoricalBaseCurrencyDto.php:24-27 | two dates with non-negative years format alike under `Y-m-d` exactly when they are the same date |
| Calendar.FormatDate | src/DTOs/HistoricalBaseCurrencyDto.php:26 | defines `format('Y-m-d')`: four-digit year, two-digit month and day joined by `-`; its injectivity is `FormatDateInjective` |
| Calendar.FormatDateSample | src/DTOs/HistoricalBaseCurrencyDto.php:24-27 | 15 January 2024 formats as "2024-01-15" |
| Calendar.OnDayOfIsSameDate | src/Concretes/Repositories/CurrencyExchangeRateRepository.php:198-202 | `whereDate('date_time', d->format('Y-m-d'))` matches exactly the rows on d's calendar day |
| Collections.Filter | src/Concretes/Repositories/CurrencyExchangeRateRepository.php:160-163 | a `where` query keeps exactly the rows that satisfy it, and only rows of the table |
| Collections.MapSeq | src/Concretes/Repositories/CurrencyExchangeRateRepository.php:177-179 | `array_map` has the input's length and applies the function at every position |
| Collections.Distinct | src/Concretes/Repositories/CurrencyExchangeRateRepository.php:177-179 | `array_unique` has no duplicates and the same members as its input |
| Collections.DistinctOrder | src/Concretes/Repositories/CurrencyExchangeRateRepository.php:177-179 | the kept elements come in the order of their first occurrences in the input |
| Collections.DistinctMembers | src/Concretes/Repositories/CurrencyExchangeRateRepository.php:177-179 | a value survives `array_unique` exactly when it occurs in the input |
| Collections.WithKey | src/Concretes/Repositories/CurrencyExchangeRateRepository.php:165-168 | the members of one group are exactly the input members that carry its key |
| Collections.GroupByKeys | src/Concretes/Repositories/CurrencyExchangeRateRepository.php:165-168 | the keys of `groupBy` are the distinct keys in order of first appearance |
| Collections.GroupBy | src/Concretes/Repositories/CurrencyExchangeRateRepository.php:165-168 | defines `groupBy`: one group per distinct key with its members in input order, as `GroupByKeys` and `GroupByItems` state |
| Collections.GroupByItems | src/Concretes/Repositories/CurrencyExchangeRateRepository.php:165-168 | every group of `groupBy` holds exactly the members with its key, in input order |
| Collections.WithKeyAbsent | src/Concretes/Repositories/CurrencyExchangeRateRepository.php:165-168 | a key that no member carries selects nothing |
| Collections.GroupByMembership | src/Concretes/Repositories/CurrencyExchangeRateRepository.php:165-168 | `groupBy` has distinct keys and no empty group; a value is in a group exactly when it is a member with that key, and every member's key is a group key |
| Collections.FilterMember | src/Concretes/Repositories/CurrencyExchangeRateRepository.php:160-163 | a row is in a filter's result exactly when it is in the table and satisfies the condition |
| Collections.WithKeyMember | src/Concretes/Repositories/CurrencyExchangeRateRepository.php:165-168 | a value is in a key's group exactly when it is a member carrying that key |
| Collections.GroupKeyWitness | src/Concretes/Repositories/CurrencyExchangeRateRepository.php:165-168 | every group is the non-empty set of members carrying its key |
| Collections.GroupKeyOfMember | src/Concretes/Repositories/CurrencyExchangeRateRepository.php:165-168 | every member's key is a group key |
| Collections.GroupFilterMembership | src/Concretes/Repositories/CurrencyExchangeRateRepository.php:165-168 | `whereIn(...)->get()->groupBy(...)`: distinct keys, no empty group, and each group holds exactly the matching rows with its key |
| Collections.Subgroup | src/Concretes/ExchangeRateApiService.php:267 | the second level of `groupBy([k1, k2])` keeps the outer keys and groups each outer group by the second key |
| Collections.GroupBy2Exact | src/Concretes/ExchangeRateApiService.php:267 | `groupBy([k1, k2])`: the outer keys are the distinct first keys, and each inner group holds exactly the members carrying both its keys |
| Collections.Subgroup2 | src/Concretes/Repositories/CurrencyExchangeRateRepository.php:257-263 | the third level of a three-key `groupBy` groups each second-level group by the third key |
| Collections.GroupBy3Member | src/Concretes/Repositories/CurrencyExchangeRateRepository.php:257-263 | an innermost group of a three-key `groupBy` holds exactly the members carrying its three keys |
| Collections.GroupBy3NonEmpty | src/Concretes/Repositories/CurrencyExchangeRateRepository.php:257-263 | no second-level group of a three-key `groupBy` is empty |
| Collections.GroupBy3Keys | src/Concretes/Repositories/CurrencyExchangeRateRepository.php:257-263 | the outer keys of a three-key `groupBy` are the distinct first keys in order |
| Collections.GroupBy3AllNonEmpty | src/Concretes/Repositories/CurrencyExchangeRateRepository.php:257-263 | no second-level group is empty, at any position |
| Collections.GroupBy3Exact | src/Concretes/Repositories/CurrencyExchangeRateRepository.php:257-263 | every innermost group holds exactly the members carrying its three keys |
| Collections.Join | src/Traits/EnumHelpers.php:85-88 | `implode` of no parts is empty, and of one part is that part |
| Collections.SplitJoin | src/Traits/EnumHelpers.php:85-88 | `explode` of an `implode` with a one-character separator that no part holds gives back the parts, in order |
| Dtos.RateCodes | src/Models/CurrencyExchangeRate.php:114 | the codes of a rate map, one per entry, in entry order |
| Dtos.PairKeyNamesPair | src/DTOs/CurrenciesPairDto.php:12-25 | `"BASE_TARGET"` keys of two pairs are equal exactly when their bases and targets are, for bases without `'_'` |
| Dtos.PairToString | src/DTOs/CurrenciesPairDto.php:22-25 | defines the pair keys `"BASE_TARGET"` and `"BASE_TARGET_Y-m-d"`; their injectivity is `PairKeyNamesPair` and `HistoricalPairKeyNamesPairAndDay` |
| Dtos.DateKeyHasNoSeparator | src/DTOs/HistoricalCurrenciesPairDto.php:22-25 | a `Y-m-d` date with a non-negative year contains no `'_'` |
| Dtos.HistoricalPairKeyNamesPairAndDay | src/DTOs/HistoricalCurrenciesPairDto.php:17-25 | `"BASE_TARGET_Y-m-d"` keys are equal exactly when base, target and calendar day are |
| Dtos.BaseKeyNamesBaseAndDay | src/DTOs/HistoricalBaseCurrencyDto.php:14-27 | `"BASE_Y-m-d"` keys are equal exactly when base and calendar day are |
| Dtos.BaseToString | src/DTOs/HistoricalBaseCurrencyDto.php:24-27 | defines the key `"BASE_Y-m-d"`; its injectivity is `BaseKeyNamesBaseAndDay` |
| Dtos.BaseKeySample | src/DTOs/HistoricalBaseCurrencyDto.php:24-27 | a request for USD at 10:30 on 15 January 2024 renders as "USD_2024-01-15" |
| Upserts.IndexOfKey | src/Concretes/Repositories/CurrencyExchangeRateRepository.php:37-41 | the conflict lookup of an upsert finds the first row with the key, or reports that none has it |
| Upserts.Lookup | src/Concretes/Repositories/CurrencyExchangeRateRepository.php:37-41 | the row holding a key is a row of the table with that key; none is found only when no row has it |
| Upserts.LastWithKey | src/Concretes/Repositories/CurrencyExchangeRateRepository.php:37-41 | the last row of a batch with a given key, or none when no row of the batch has it |
| Upserts.UpsertOneFacts | src/Concretes/Repositories/CurrencyExchangeRateRepository.php:37-41 | one upserted row keeps keys unique, replaces the row with its key or appends, and leaves every other row untouched |
| Upserts.UpsertOne | src/Concretes/Repositories/CurrencyExchangeRateRepository.php:37-41 | defines one row of `upsert`: replace the row with the same unique key, else append; `UpsertOneFacts` states its effect |
| Upserts.Upsert | src/Concretes/Repositories/CurrencyExchangeRateRepository.php:98-110 | defines `upsert` of a batch as its rows applied in order; `UpsertLookup` and `UpsertUntouched` state the result |
| Upserts.UpsertLookup | src/Concretes/Repositories/CurrencyExchangeRateRepository.php:98-110 | after a batch upsert each key holds the batch's last row with that key, or its old row when the batch lacks it, and keys stay unique |
| Upserts.UpsertUntouched | src/Concretes/Repositories/CurrencyExchangeRateRepository.php:98-110 | an upsert never removes rows, leaves rows with other keys in place, and brings in only rows of the batch |
| Upserts.UniqueLookup | src/Concretes/Repositories/CurrencyExchangeRateRepository.php:37-41 | in a table with unique keys, looking up a row's key finds that row |
| Upserts.UpsertNewKey | src/Concretes/Repositories/CurrencyExchangeRateRepository.php:37-41 | a row with a key new to the table is the batch's last row with that key |
| Models.RateModels | src/Models/CurrencyExchangeRate.php:111-123 | one model per rate entry, in entry order, with the DTO's base, the entry's code and rate, no provider and the one captured `now` |
| Models.HistoryModels | src/Models/CurrencyExchangeRateHistory.php:116-130 | one model per rate entry, in order, each with the DTO's base and `date_time`, its own code and rate, no provider and one shared `now` |
| Models.ConstructFromExchangeRatesDto | src/Models/CurrencyExchangeRate.php:109-124 | the loop yields exactly the models `RateModels` describes |
| Models.ConstructFromHistoricalExchangeRatesDto | src/Models/CurrencyExchangeRateHistory.php:114-131 | the loop yields exactly the models `HistoryModels` describes |
| Models.RatesAfterCreateOrUpdate | src/Models/CurrencyExchangeRate.php:79-96 | an existing pair is updated in place (the table keeps its size); a new pair is appended |
| Models.RatesAfterCreateOrUpdateFacts | src/Models/CurrencyExchangeRate.php:79-96 | after `createOrUpdate` the pair holds the attributes, every other pair looks up as before, rows of other pairs stay in place, and pairs stay unique |
| Models.MissingColumn | src/Models/CurrencyExchangeRateHistory.php:85-90 | a `where` fails exactly when some filter column is not a column of the table, and then on a filter column the table lacks |
| Models.HistoryLookupHasMissingColumn | src/Models/CurrencyExchangeRateHistory.php:85-90 | the history lookup filters on `last_update_timestamp`, which the history table (its migrations) does not have |
| Models.Database.constructor | src/Models/CurrencyExchangeRate.php:79-96 | an empty database satisfies the unique-key invariant |
| Models.Database.UpsertRates | src/Concretes/Repositories/CurrencyExchangeRateRepository.php:37-41 | the current table becomes the list-order upsert of the rows on `(base, target)`; history is unchanged |
| Models.Database.UpsertHistory | src/Concretes/Repositories/CurrencyExchangeRateRepository.php:98-110 | the history table becomes the list-order upsert of the rows on `(base, target, date_time)`; current rates are unchanged |
| Models.Database.CreateOrUpdateRate | src/Models/CurrencyExchangeRate.php:79-96 | returns a record with the attributes; the current table becomes `RatesAfterCreateOrUpdate`; history is unchanged |
| Models.Database.CreateOrUpdateHistory | src/Models/CurrencyExchangeRateHistory.php:82-101 | as written, fails with the unknown-column `QueryException` on `last_update_timestamp` for every input, before any write |
| Models.Database.CreateOrUpdateHistoryOfDay | src/Models/CurrencyExchangeRateHistory.php:82-101 | as evidently intended: the row with the same base, target and `date_time` is replaced or a row is appended; that key then holds the attributes, every other key looks up as before, rows of other keys stay in place, keys stay unique |
| RateRows.Inverse | src/Concretes/Repositories/CurrencyExchangeRateRepository.php:31 | `1 / rate` rounded DOWN at scale 0: the integer part of `1 / rate`, truncated toward zero for either sign |
| RateRows.InverseOfCommonRates | src/Concretes/Repositories/CurrencyExchangeRateRepository.php:62 | the inverse of a rate above 1 is 0, and of a rate in (0.5, 1] is 1 |
| RateRows.CurrentRows | src/Concretes/Repositories/CurrencyExchangeRateRepository.php:19-35 | n entries give 2n rows: for entry i, the forward row at 2i and the inverse row at 2i+1, all with the same provider and `now` |
| RateRows.HistoryRows | src/Concretes/Repositories/CurrencyExchangeRateRepository.php:78-96 | 2n rows, forward then inverse per entry, all with the same provider, `date_time` and `now` |
| RateRows.BulkFailure | src/Concretes/Repositories/CurrencyExchangeRateRepository.php:47-66 | a bulk update fails exactly when some element is not the expected DTO or carries a zero rate; the failure is `InvalidArgumentException` with the source's message, or division by zero |
| RateRows.BulkOfOne | src/Concretes/Repositories/CurrencyExchangeRateRepository.php:44-74 | a bulk update of one DTO builds the same rows as `updateExchangeRates` of that DTO |
| RateRows.BulkCurrentRows | src/Concretes/Repositories/CurrencyExchangeRateRepository.php:47-68 | defines the rows of `updateBulkExchangeRates`, a forward and an inverse row per entry DTO by DTO; `BulkOfOne` and `BulkOfTwo` relate them to the single update |
| RateRows.BulkHistoryRows | src/Concretes/Repositories/CurrencyExchangeRateRepository.php:116-138 | defines the rows of `updateBulkExchangeRatesHistory`, the historical twin of `BulkCurrentRows` |
| RateRows.CarriedRateIsQuoted | src/Concretes/Repositories/CurrencyExchangeRateRepository.php:19-35 | the rate a pair keeps is the quoted rate for every code but the base; for the base quoted against itself it is the inverse, which for the documented quote of 1 is 1 again |
| RateRows.CarriedRate | src/Concretes/Repositories/CurrencyExchangeRateRepository.php:19-35 | defines the rate a pair holds after the forward-then-inverse upsert; `CarriedRateIsQuoted` states its cases |
| RateRows.CurrentRowsCarry | src/Concretes/Repositories/CurrencyExchangeRateRepository.php:19-35 | with distinct codes, the last row for `(base, code)` is that code's entry with the carried rate (the inverse row when the code is the base itself), and an absent code has no row |
| RateRows.HistoryRowsCarry | src/Concretes/Repositories/CurrencyExchangeRateRepository.php:78-96 | the same for history rows keyed by `(base, code, date_time)` |
| RateRows.UpdatedForwardRates | src/Concretes/Repositories/CurrencyExchangeRateRepository.php:17-42 | after `updateExchangeRates` every `(base, code)` holds the entry's carried rate and the provider; pairs of the base with other codes keep their rows; keys stay unique |
| RateRows.UpdatedForwardHistory | src/Concretes/Repositories/CurrencyExchangeRateRepository.php:76-111 | after `updateExchangeRatesHistory` every `(base, code, date_time)` holds the entry's carried rate; the base's other keys at that instant keep their rows |
| RateRows.RowsWithBase | src/Concretes/Repositories/CurrencyExchangeRateRepository.php:160-163 | the rows with a given base, and only rows of the table |
| RateRows.UpdateThenGetExchangeRates | src/Concretes/Repositories/CurrencyExchangeRateRepository.php:17-42 | on a table without rows for the base, the base's rows after the update are exactly one row per rate entry, carrying its carried rate |
| RateRows.BulkOfTwo | src/Concretes/Repositories/CurrencyExchangeRateRepository.php:44-74 | a bulk update of two DTOs builds the rows of the first, then those of the second |
| RateRows.CurrentRowsOfOne | src/Concretes/Repositories/CurrencyExchangeRateRepository.php:20-35 | one entry gives its forward row, then its inverse row |
| RateRows.ReciprocalBulkOverwrite | src/Concretes/Repositories/CurrencyExchangeRateRepository.php:44-74 | bulk-updating USD→EUR 0.83 and then EUR→USD 1.15 leaves USD→EUR at 0, the truncated inverse from the second DTO, because the batch is applied in list order |
| Repository.Latest | src/Concretes/Repositories/CurrencyExchangeRateRepository.php:269-275 | `orderBy('date_time', 'desc')->first()`: none only for no rows, otherwise a row no other row is later than |
| Repository.Earliest | src/Concretes/Repositories/CurrencyExchangeRateRepository.php:280-286 | `orderBy('date_time', 'asc')->first()`: none only for no rows, otherwise a row no other row is earlier than |
| Repository.PairRowsNotAfter | src/Concretes/Repositories/CurrencyExchangeRateRepository.php:269-275 | exactly the pair's rows with `date_time <= d` |
| Repository.PairRowsNotBefore | src/Concretes/Repositories/CurrencyExchangeRateRepository.php:280-286 | exactly the pair's rows with `date_time >= d` |
| Repository.BuildCurrentRows | src/Concretes/Repositories/CurrencyExchangeRateRepository.php:19-35 | the loop builds `CurrentRows`, or fails with division by zero when some rate is zero |
| Repository.BuildHistoryRows | src/Concretes/Repositories/CurrencyExchangeRateRepository.php:78-96 | the loop builds `HistoryRows`, or fails with division by zero |
| Repository.BuildBulkCurrentRows | src/Concretes/Repositories/CurrencyExchangeRateRepository.php:46-67 | the nested loop fails with `BulkFailure` when there is one, and otherwise builds the rows of every DTO in order |
| Repository.BuildBulkHistoryRows | src/Concretes/Repositories/CurrencyExchangeRateRepository.php:115-138 | the same for historical DTOs |
| Repository.CurrencyExchangeRateRepository.constructor | src/Concretes/Repositories/CurrencyExchangeRateRepository.php:15 | the repository works on the given database |
| Repository.CurrencyExchangeRateRepository.UpdateExchangeRates | src/Concretes/Repositories/CurrencyExchangeRateRepository.php:17-42 | writes `CurrentRows` by one upsert, leaves history unchanged and reports whether rows were sent; a zero rate writes nothing and raises division by zero |
| Repository.CurrencyExchangeRateRepository.UpdateExchangeRatesHistory | src/Concretes/Repositories/CurrencyExchangeRateRepository.php:76-111 | upserts `HistoryRows` into history only; a zero rate writes nothing |
| Repository.CurrencyExchangeRateRepository.UpdateBulkExchangeRates | src/Concretes/Repositories/CurrencyExchangeRateRepository.php:44-74 | the first non-DTO or zero rate raises before any write; otherwise the rows of all DTOs go in one upsert |
| Repository.CurrencyExchangeRateRepository.UpdateBulkExchangeRatesHistory | src/Concretes/Repositories/CurrencyExchangeRateRepository.php:113-153 | the first non-historical element or zero rate raises before any write; otherwise one history upsert |
| Repository.CurrencyExchangeRateRepository.GetAllExchangeRates | src/Concretes/Repositories/CurrencyExchangeRateRepository.php:155-158 | all current rows: same size, and every pair looks up as in the table |
| Repository.CurrencyExchangeRateRepository.GetExchangeRates | src/Concretes/Repositories/CurrencyExchangeRateRepository.php:160-163 | exactly the current rows with the given base |
| Repository.RowsOfBases | src/Concretes/Repositories/CurrencyExchangeRateRepository.php:167 | `whereIn('base_currency_code', ...)`: a row is selected exactly when it is in the table and its base is listed |
| Repository.CurrencyExchangeRateRepository.GetBulkExchangeRates | src/Concretes/Repositories/CurrencyExchangeRateRepository.php:165-168 | groups by base with distinct keys, no empty group; each group holds exactly the rows of a requested base with that key, and every requested base with rows has a group |
| Repository.CurrencyExchangeRateRepository.GetExchangeRate | src/Concretes/Repositories/CurrencyExchangeRateRepository.php:170-173 | the row of the pair, or `ModelNotFoundException` naming the model exactly when the pair has no row |
| Repository.CurrencyExchangeRateRepository.GetBulkExchangeRate | src/Concretes/Repositories/CurrencyExchangeRateRepository.php:175-196 | groups by the `"BASE_TARGET"` key: each group holds exactly the rows whose key was requested and equals its key; distinct keys, no empty group |
| Repository.CurrencyExchangeRateRepository.GetHistoricalExchangeRates | src/Concretes/Repositories/CurrencyExchangeRateRepository.php:198-202 | exactly the history rows with the base on the given calendar day |
| Repository.CurrencyExchangeRateRepository.GetHistoricalExchangeRate | src/Concretes/Repositories/CurrencyExchangeRateRepository.php:233-237 | a row of the pair on that day, or not-found exactly when there is none |
| Repository.CurrencyExchangeRateRepository.GetBulkHistoricalExchangeRates | src/Concretes/Repositories/CurrencyExchangeRateRepository.php:204-231 | groups by the `"BASE_Y-m-d"` key: each group holds exactly the history rows whose key was requested and equals its key |
| Repository.CurrencyExchangeRateRepository.SelectedHistoricalPairs | src/Concretes/Repositories/CurrencyExchangeRateRepository.php:241-256 | exactly the history rows whose `"BASE_TARGET_Y-m-d"` key was requested |
| Repository.CurrencyExchangeRateRepository.GetBulkHistoricalExchangeRate | src/Concretes/Repositories/CurrencyExchangeRateRepository.php:239-264 | nested groups by base, then target, then day: distinct outer keys, no empty group, and each innermost group holds exactly the selected rows with its three keys |
| Repository.CurrencyExchangeRateRepository.GetPreviousHistoricalRate | src/Concretes/Repositories/CurrencyExchangeRateRepository.php:269-275 | the pair's row with the greatest `date_time <= d`; none exactly when every row of the pair is after d |
| Repository.CurrencyExchangeRateRepository.GetNextHistoricalRate | src/Concretes/Repositories/CurrencyExchangeRateRepository.php:280-286 | the pair's row with the least `date_time >= d`; none exactly when every row of the pair is before d |
| Repository.CurrencyExchangeRateRepository.GetBoundingHistoricalRates | src/Concretes/Repositories/CurrencyExchangeRateRepository.php:297-312 | empty or `[previous, next]`, and the two are different records |
| Repository.CurrencyExchangeRateRepository.BoundingRatesNonEmpty | src/Concretes/Repositories/CurrencyExchangeRateRepository.php:297-312 | a non-empty answer means the pair has rows on both sides of d and none exactly at d |
| Repository.CurrencyExchangeRateRepository.BoundingRatesWhen | src/Concretes/Repositories/CurrencyExchangeRateRepository.php:297-312 | rows on both sides of d and none at d give a non-empty answer |
| Repository.CurrencyExchangeRateRepository.BoundingRatesTight | src/Concretes/Repositories/CurrencyExchangeRateRepository.php:297-312 | the two rows are strictly before and strictly after d, and no row of the pair lies strictly between them |
| Repository.CurrencyExchangeRateRepository.BoundingRatesIff | src/Concretes/Repositories/CurrencyExchangeRateRepository.php:297-312 | non-empty exactly when the pair has rows on both sides of d and none exactly at d |
| AdapterSupport.FirstFailure | src/Concretes/ExchangeRateApiService.php:127-136 | the first request of a list that throws, all before it succeeding; none when all succeed |
| AdapterSupport.Attempted | src/Concretes/ExchangeRateApiService.php:127-136 | the requests actually sent: all of them, or those up to and including the first that throws |
| AdapterSupport.FetchAll | src/Concretes/ExchangeRateApiService.php:127-136 | succeeds exactly when no request throws, with the responses in request order; otherwise raises the first request's exception |
| AdapterSupport.FetchEach | src/Concretes/OpenExchangeRateService.php:198-211 | the fetch loop computes `FetchAll` and sends exactly the `Attempted` requests |
| AdapterSupport.ConstructAllRateModels | src/Concretes/ExchangeRateApiService.php:158-161 | the loop collects the models of every DTO, in order |
| AdapterSupport.ConstructAllHistoryModels | src/Concretes/ExchangeRateApiService.php:263-266 | the loop collects the history models of every DTO, in order |
| AdapterSupport.Items | src/Concretes/ExchangeRateApiService.php:154-155 | the DTO list as the untyped array a bulk update receives, element by element |
| AdapterSupport.CurrentWrite | src/Concretes/ExchangeRateApiService.php:98-114 | a store that fails leaves both tables as they were |
| AdapterSupport.HistoricalWrite | src/Concretes/ExchangeRateApiService.php:206-219 | a historical store never changes the current table |
| AdapterSupport.BulkCurrentWrite | src/Concretes/ExchangeRateApiService.php:139-162 | a failure never touches the history table (the current table may already be written when only the history rows fail); `BulkCurrentWriteAllOrNothing`, `BulkCurrentWriteGroups` and `BulkCurrentWriteValue` state the rest |
| AdapterSupport.BulkHistoricalWrite | src/Concretes/ExchangeRateApiService.php:260-267 | a bulk historical store never changes the current table, and a failed one changes nothing |
| AdapterSupport.StoreCurrent | src/Concretes/ExchangeRateApiService.php:98-114 | the two repository writes and the model construction yield `CurrentWrite` |
| AdapterSupport.StoreHistorical | src/Concretes/ExchangeRateApiService.php:206-219 | the history write and the model construction yield `HistoricalWrite` |
| AdapterSupport.StoreBulkCurrent | src/Concretes/ExchangeRateApiService.php:154-162 | the two bulk writes and the grouped models yield `BulkCurrentWrite` |
| AdapterSupport.StoreBulkHistorical | src/Concretes/ExchangeRateApiService.php:260-267 | the bulk history write and the nested grouping yield `BulkHistoricalWrite` |
| AdapterSupport.FirstWithTarget | src/Concretes/ExchangeRateApiService.php:296-305 | `where('target_currency_code', t)->firstOrFail()`: the first model with that target, or `ItemNotFoundException` exactly when there is none |
| AdapterSupport.CurrentWriteStoresModels | src/Concretes/ExchangeRateApiService.php:98-114 | with distinct codes, the store fails exactly on a zero rate and then changes nothing; otherwise one model per entry is returned, each current row equals its model with the provider set and the carried rate, and each history row at the stamp carries the same rate |
| AdapterSupport.HistoricalWriteStoresModels | src/Concretes/ExchangeRateApiService.php:206-219 | with distinct codes, the store fails exactly on a zero rate; otherwise one model per entry, and the history row under each model's key equals the model with the provider set and the carried rate |
| AdapterSupport.BulkCurrentWriteAllOrNothing | src/Concretes/ExchangeRateApiService.php:139-155 | a bulk current store writes both tables or neither; it fails exactly when some DTO has a zero rate, and then with division by zero |
| AdapterSupport.BulkFailureIsDivision | src/Concretes/Repositories/CurrencyExchangeRateRepository.php:47-66 | when every element is an accepted DTO the only possible failure is division by zero |
| AdapterSupport.BulkCurrentWriteGroups | src/Concretes/ExchangeRateApiService.php:158-162 | the answer is grouped by base, in order of first appearance, each group holding exactly the models with that base |
| AdapterSupport.BulkHistoricalWriteGroups | src/Concretes/ExchangeRateApiService.php:263-267 | the answer is grouped by base and then day, each inner group holding exactly the models with both keys |
| AdapterSupport.FirstWithTargetOfModels | src/Concretes/ExchangeRateApiService.php:296-305 | over freshly built models, not found exactly when the target is not among the entry codes; otherwise the model of the first entry with that code |
| ExchangeRateApi.HistoryPathSample | src/Concretes/ExchangeRateApiService.php:198-202 | 5 January 2024 gives "/history/USD/2024/1/5", with no padding |
| ExchangeRateApi.LatestPath | src/Concretes/ExchangeRateApiService.php:94 | defines the path `/latest/<code>` |
| ExchangeRateApi.HistoryPath | src/Concretes/ExchangeRateApiService.php:198-202 | defines the path `/history/<code>/<year>/<month>/<day>` with unpadded numbers; `HistoryPathSample` pins one value |
| ExchangeRateApi.StoreExchangeRatesOutcome | src/Concretes/ExchangeRateApiService.php:90-115 | a failed fetch or write leaves both tables unchanged |
| ExchangeRateApi.StoreBulkOutcome | src/Concretes/ExchangeRateApiService.php:124-163 | a failure never touches the history table; the all-or-nothing property is `StoreBulkAllOrNothing` |
| ExchangeRateApi.StoreHistoricalOutcome | src/Concretes/ExchangeRateApiService.php:195-220 | the historical store never changes the current table |
| ExchangeRateApi.StoreBulkHistoricalOutcome | src/Concretes/ExchangeRateApiService.php:229-268 | the bulk historical store never changes the current table |
| ExchangeRateApi.BulkDtosAreTwins | src/Concretes/ExchangeRateApiService.php:139-151 | the two DTO lists match position by position: same bases and rates, the second stamped |
| ExchangeRateApi.StoreBulkAllOrNothing | src/Concretes/ExchangeRateApiService.php:124-163 | a failed bulk store leaves both tables unchanged |
| ExchangeRateApi.BuildDtos | src/Concretes/ExchangeRateApiService.php:139-151 | one current DTO and one DTO stamped `Carbon::createFromTimestamp(time_last_update_unix)` per response, in order |
| ExchangeRateApi.BuildDayDtos | src/Concretes/ExchangeRateApiService.php:249-257 | one history DTO per response, dated from the response's year, month and day |
| ExchangeRateApi.ExchangeRateApiService.constructor | src/Concretes/ExchangeRateApiService.php:72-81 | the adapter holds its repository and HTTP client and has sent nothing |
| ExchangeRateApi.ExchangeRateApiService.StoreExchangeRates | src/Concretes/ExchangeRateApiService.php:90-115 | requests `/latest/CODE` once; the tables and the answer are `StoreExchangeRatesOutcome`: both tables written under the response's `base_code` with no provider, history stamped with `time_last_update_unix` |
| ExchangeRateApi.ExchangeRateApiService.StoreBulkExchangeRatesForMultipleCurrencies | src/Concretes/ExchangeRateApiService.php:124-163 | requests `/latest/CODE` per code in order, up to the first that throws; one bulk write per table |
| ExchangeRateApi.ExchangeRateApiService.StoreHistoricalExchangeRates | src/Concretes/ExchangeRateApiService.php:195-220 | requests the unpadded history path once; writes history only, stamped with the requested `date_time` |
| ExchangeRateApi.ExchangeRateApiService.StoreBulkHistoricalExchangeRatesForMultipleCurrencies | src/Concretes/ExchangeRateApiService.php:229-268 | one history request per element in order; one bulk history write dated from each response |
| ExchangeRateApi.ExchangeRateApiService.GetExchangeRates | src/Concretes/ExchangeRateApiService.php:172-175 | the repository's answer, unchanged |
| ExchangeRateApi.ExchangeRateApiService.GetAllExchangeRates | src/Concretes/ExchangeRateApiService.php:182-185 | the repository's answer, unchanged |
| ExchangeRateApi.ExchangeRateApiService.GetHistoricalExchangeRates | src/Concretes/ExchangeRateApiService.php:278-285 | stored rows are returned without a request; on a miss, one request and the historical store's outcome |
| ExchangeRateApi.ExchangeRateApiService.GetHistoricalExchangeRate | src/Concretes/ExchangeRateApiService.php:296-305 | a stored row is returned without a request; on not-found, the date is stored and the first fetched model with the target is returned, or `ItemNotFoundException` |
| OpenExchangeRates.HistoryPathSample | src/Concretes/OpenExchangeRateService.php:134-139 | 5 January 2024 gives "/historical/2024-01-05.json?base=USD", zero-padded |
| OpenExchangeRates.LatestPath | src/Concretes/OpenExchangeRateService.php:86 | defines the path `/latest.json?base=<code>` |
| OpenExchangeRates.HistoryPath | src/Concretes/OpenExchangeRateService.php:134-139 | defines the path `/historical/<Y-m-d>.json?base=<code>`; `HistoryPathSample` pins one value |
| OpenExchangeRates.StoreExchangeRatesOutcome | src/Concretes/OpenExchangeRateService.php:82-107 | a failed fetch or write leaves both tables unchanged |
| OpenExchangeRates.StoreBulkOutcome | src/Concretes/OpenExchangeRateService.php:195-236 | a failure never touches the history table; the all-or-nothing property is `StoreBulkAllOrNothing` |
| OpenExchangeRates.StoreHistoricalOutcome | src/Concretes/OpenExchangeRateService.php:131-157 | the historical store never changes the current table |
| OpenExchangeRates.StoreBulkHistoricalOutcome | src/Concretes/OpenExchangeRateService.php:244-285 | the bulk historical store never changes the current table |
| OpenExchangeRates.BulkDtosAreTwins | src/Concretes/OpenExchangeRateService.php:213-224 | the two DTO lists match position by position: same bases and rates, the second stamped |
| OpenExchangeRates.StoreBulkAllOrNothing | src/Concretes/OpenExchangeRateService.php:195-236 | a failed bulk store leaves both tables unchanged |
| OpenExchangeRates.BuildDtos | src/Concretes/OpenExchangeRateService.php:213-224 | one current DTO and one DTO stamped with the response `timestamp` per response, in order |
| OpenExchangeRates.BuildStampedDtos | src/Concretes/OpenExchangeRateService.php:267-274 | one history DTO per response, stamped with its `timestamp` rather than the requested date |
| OpenExchangeRates.OpenExchangeRateService.constructor | src/Concretes/OpenExchangeRateService.php:64-74 | the adapter holds its repository and HTTP client and has sent nothing |
| OpenExchangeRates.OpenExchangeRateService.StoreExchangeRates | src/Concretes/OpenExchangeRateService.php:82-107 | requests `/latest.json?base=CODE` once; both tables written under the response's `base`, history stamped with `timestamp` |
| OpenExchangeRates.OpenExchangeRateService.StoreBulkExchangeRatesForMultipleCurrencies | src/Concretes/OpenExchangeRateService.php:195-236 | one request per code in order, up to the first that throws; one bulk write per table |
| OpenExchangeRates.OpenExchangeRateService.StoreHistoricalExchangeRates | src/Concretes/OpenExchangeRateService.php:131-157 | requests the padded history path once; writes history only, stamped with the requested date |
| OpenExchangeRates.OpenExchangeRateService.StoreBulkHistoricalExchangeRatesForMultipleCurrencies | src/Concretes/OpenExchangeRateService.php:244-285 | one request per element, in order; one bulk history write stamped with each response's `timestamp` |
| OpenExchangeRates.OpenExchangeRateService.GetExchangeRates | src/Concretes/OpenExchangeRateService.php:112-115 | the repository's answer, unchanged |
| OpenExchangeRates.OpenExchangeRateService.GetAllExchangeRates | src/Concretes/OpenExchangeRateService.php:120-123 | the repository's answer, unchanged |
| OpenExchangeRates.OpenExchangeRateService.GetHistoricalExchangeRates | src/Concretes/OpenExchangeRateService.php:165-173 | a non-empty stored answer is returned with no request; an empty one leads to one request and the historical store's outcome |
| OpenExchangeRates.OpenExchangeRateService.GetHistoricalExchangeRate | src/Concretes/OpenExchangeRateService.php:178-187 | on not-found the date is stored, then the first fetched model with the target is returned or `ItemNotFoundException` raised |
| WorldBank.YearData | src/Concretes/WorldBankExchangeRateApiService.php:91-115 | a failed first page is the answer; a first page whose metadata reports at most one page (or none) is the answer as fetched; one reporting more pages is replaced by `fetchAllPages` of it for that year |
| WorldBank.PagePath | src/Concretes/WorldBankExchangeRateApiService.php:96-100 | defines the first-page path `/country/all/indicator/PA.NUS.FCRF?date=<year>&format=json&per_page=1000` |
| WorldBank.NeedsAllPages | src/Concretes/WorldBankExchangeRateApiService.php:104 | defines the pagination test: the metadata is set and its `pages`, or 1 when absent, exceeds 1 (its use is stated by `YearData`) |
| WorldBank.Stamp | src/Concretes/WorldBankExchangeRateApiService.php:323-324 | the dataset's `lastupdated` when its metadata carries one, and otherwise the fallback the caller passes (now, the requested date, or 1 January of the batch year) |
| WorldBank.CurrentDtos | src/Concretes/WorldBankExchangeRateApiService.php:281-284 | one current DTO per extracted base, in order, with that base's rates |
| WorldBank.StampedDtos | src/Concretes/WorldBankExchangeRateApiService.php:281-284 | one history DTO per extracted base, in order, all with the same stamp |
| WorldBank.YearDtos | src/Concretes/WorldBankExchangeRateApiService.php:316-338 | the DTOs of all year batches are historical |
| WorldBank.YearDtosAppend | src/Concretes/WorldBankExchangeRateApiService.php:318-337 | the DTOs of two runs of year batches are those of the first run followed by those of the second |
| WorldBank.YearDtosCons | src/Concretes/WorldBankExchangeRateApiService.php:318-337 | block by block: a batch contributes, in order, one DTO per base the extraction returns for its codes from its dataset, each stamped with that dataset's `lastupdated` or 1 January of the batch's year, followed by the DTOs of the later batches |
| WorldBank.BatchDtos | src/Concretes/WorldBankExchangeRateApiService.php:318-337 | the DTOs of one year batch are historical and all carry the dataset's `lastupdated`, or 1 January of the batch's year when it has none |
| WorldBank.YearDtosStamps | src/Concretes/WorldBankExchangeRateApiService.php:323-324 | every DTO of the loop carries the stamp of one of the batches' datasets |
| WorldBank.StoreExchangeRatesOutcome | src/Concretes/WorldBankExchangeRateApiService.php:123-165 | a failed fetch leaves both tables unchanged; when the year's dataset yields no rates for the code, nothing is written and the answer is an empty collection; an empty answer never comes with a write |
| WorldBank.StoreBulkOutcome | src/Concretes/WorldBankExchangeRateApiService.php:256-297 | when the dataset yields no base at all, nothing is written and the answer is an empty collection; a failure never touches the history table; the all-or-nothing property is `StoreBulkAllOrNothing` |
| WorldBank.StoreHistoricalOutcome | src/Concretes/WorldBankExchangeRateApiService.php:190-228 | the historical store never changes the current table; when the dataset of the date's year yields no rates for the code, nothing is written and the answer is an empty collection; a failure or an empty answer leaves both tables unchanged |
| WorldBank.StoreBulkHistoricalOutcome | src/Concretes/WorldBankExchangeRateApiService.php:305-356 | never changes the current table; a fetch failure leaves history unchanged too; when the year datasets yield no DTOs, nothing is written and the answer is an empty collection |
| WorldBank.YearBatches | src/Concretes/WorldBankExchangeRateApiService.php:308-312 | the year buckets are the distinct request years in order of first appearance, each holding exactly that year's requests |
| WorldBank.StoreBulkAllOrNothing | src/Concretes/WorldBankExchangeRateApiService.php:256-297 | a failed bulk current store leaves both tables unchanged |
| WorldBank.StoreExchangeRatesProvider | src/Concretes/WorldBankExchangeRateApiService.php:146-164 | once the year is fetched, the store succeeds exactly when the extracted rates hold no zero; the answer's models have no provider, and the current row of each holds the model with the provider name and the carried rate |
| WorldBank.BuildDtos | src/Concretes/WorldBankExchangeRateApiService.php:279-284 | the loop builds `CurrentDtos` and `StampedDtos` |
| WorldBank.BuildYearDtos | src/Concretes/WorldBankExchangeRateApiService.php:316-338 | the year loop builds `YearDtos` |
| WorldBank.WorldBankExchangeRateApiService.constructor | src/Concretes/WorldBankExchangeRateApiService.php:74-83 | the adapter holds its repository and sources and has sent nothing |
| WorldBank.WorldBankExchangeRateApiService.FetchWorldBankData | src/Concretes/WorldBankExchangeRateApiService.php:91-115 | requests the year's first page with `PA.NUS.FCRF` and `per_page=1000`, and answers `YearData` |
| WorldBank.WorldBankExchangeRateApiService.StoreExchangeRates | src/Concretes/WorldBankExchangeRateApiService.php:123-165 | fetches the current year once; an empty extraction writes nothing; else the same rates go to both tables with the provider name, stamped `lastupdated` or now |
| WorldBank.WorldBankExchangeRateApiService.StoreHistoricalExchangeRates | src/Concretes/WorldBankExchangeRateApiService.php:190-228 | fetches the year of the given date once; writes history only, stamped `lastupdated` or the given date |
| WorldBank.WorldBankExchangeRateApiService.StoreBulkExchangeRatesForMultipleCurrencies | src/Concretes/WorldBankExchangeRateApiService.php:256-297 | fetches the current year once; no extracted base writes nothing; else one bulk write per table |
| WorldBank.WorldBankExchangeRateApiService.StoreBulkHistoricalExchangeRatesForMultipleCurrencies | src/Concretes/WorldBankExchangeRateApiService.php:305-356 | one fetch per distinct year in order of first appearance, up to the first that throws; no DTOs means no write; otherwise exactly one bulk history write |
| WorldBank.WorldBankExchangeRateApiService.GetExchangeRates | src/Concretes/WorldBankExchangeRateApiService.php:170-173 | the repository's answer, unchanged |
| WorldBank.WorldBankExchangeRateApiService.GetAllExchangeRates | src/Concretes/WorldBankExchangeRateApiService.php:178-181 | the repository's answer, unchanged |
| WorldBank.WorldBankExchangeRateApiService.GetHistoricalExchangeRates | src/Concretes/WorldBankExchangeRateApiService.php:236-239 | the repository's answer, with no request |
| WorldBank.WorldBankExchangeRateApiService.GetHistoricalExchangeRate | src/Concretes/WorldBankExchangeRateApiService.php:244-247 | the repository's answer, with no request |
| Fallback.DefaultOrder | src/Concretes/FallbackExchangeRateService.php:45-49 | without configuration the order is ExchangeRate-API, Open Exchange Rates, World Bank |
| Fallback.Step | src/Concretes/FallbackExchangeRateService.php:67-96 | a turn succeeds only for a rate-service instance whose call gave a real value; it is skipped exactly when the instance is not a rate service |
| Fallback.FirstSuccess | src/Concretes/FallbackExchangeRateService.php:64-91 | the first position whose turn succeeds, none before it succeeding; none when no turn succeeds |
| Fallback.LastThrowMeaning | src/Concretes/FallbackExchangeRateService.php:62-96 | `lastException` after the loop: none exactly when no turn threw, otherwise the message of the last turn that threw |
| Fallback.InvokedMeaning | src/Concretes/FallbackExchangeRateService.php:67-75 | the instances whose operation was called: at most one per class string, each a rate service made from a listed class |
| Fallback.Reach | src/Concretes/FallbackExchangeRateService.php:64-91 | the loop reaches at most the whole list |
| Fallback.Fallback | src/Concretes/FallbackExchangeRateService.php:99-104 | on exhaustion, a `RuntimeException` naming the operation and the last exception's message |
| Fallback.Collected | src/Concretes/FallbackExchangeRateService.php:78-91 | an adapter's collection counts as a value exactly when it is returned and not empty, and as a throw exactly when it raised, with the same message |
| Fallback.FirstRealResultWins | src/Concretes/FallbackExchangeRateService.php:64-91 | the answer is that of the first position that succeeds, that service becomes current, and the loop stops right after it |
| Fallback.LaterServicesIgnored | src/Concretes/FallbackExchangeRateService.php:88-91 | classes appended after a successful one do not change which one wins |
| Fallback.LastThrowOfTurn | src/Concretes/FallbackExchangeRateService.php:69-96 | a skipped, empty or null turn leaves `lastException` as it was; a throwing turn replaces it |
| Fallback.TurnEffect | src/Concretes/FallbackExchangeRateService.php:64-96 | one turn updates `lastException` and the call log exactly as the loop body does |
| Fallback.UnknownErrorWhenNothingThrew | src/Concretes/FallbackExchangeRateService.php:99-104 | when no turn threw, the message ends "Last error: Unknown error" |
| Fallback.NotHistoricalThrows | src/Concretes/FallbackExchangeRateService.php:169-197 | a rate service without historical support throws inside both historical store turns, rather than being skipped |
| Fallback.StoreAnswersAreNonEmpty | src/Concretes/FallbackExchangeRateService.php:78-91 | a successful `storeExchangeRates` never answers an empty collection |
| Fallback.Turn | src/Concretes/FallbackExchangeRateService.php:67-96 | one turn computes `Step` and logs the call exactly when an operation was invoked |
| Fallback.NoneSucceeds | src/Concretes/FallbackExchangeRateService.php:99-104 | when no turn succeeds every class string is tried and the all-failed exception carries the last thrown message |
| Fallback.Walk | src/Concretes/FallbackExchangeRateService.php:64-97 | the loop stops at the first turn that succeeds, or after all of them; on exhaustion `lastException` is the last thrown message, and the instances invoked are exactly those up to the stop |
| Fallback.Scan | src/Concretes/FallbackExchangeRateService.php:60-105 | the loop computes `Fallback`, finds a winner exactly when some turn succeeds (the `Chosen` one), and invokes exactly the instances up to where it stopped |
| Fallback.FallbackExchangeRateService.constructor | src/Concretes/FallbackExchangeRateService.php:41-50 | the configured order or the default order; `currentService` is null; nothing invoked |
| Fallback.FallbackExchangeRateService.TryWithFallback | src/Concretes/FallbackExchangeRateService.php:60-105 | answer `Fallback`; `currentService` becomes the winner, or stays as it was when all fail; the order is unchanged |
| Fallback.FallbackExchangeRateService.StoreExchangeRates | src/Concretes/FallbackExchangeRateService.php:114-120 | `tryWithFallback` over `storeExchangeRates(code)` with the name "storeExchangeRates(CODE)" |
| Fallback.FallbackExchangeRateService.StoreBulkExchangeRatesForMultipleCurrencies | src/Concretes/FallbackExchangeRateService.php:129-135 | `tryWithFallback` over the bulk current store |
| Fallback.FallbackExchangeRateService.StoreHistoricalExchangeRates | src/Concretes/FallbackExchangeRateService.php:167-178 | `tryWithFallback` over a closure that throws for an adapter without historical support |
| Fallback.FallbackExchangeRateService.StoreBulkHistoricalExchangeRatesForMultipleCurrencies | src/Concretes/FallbackExchangeRateService.php:187-198 | the same for the bulk historical store |
| Fallback.FallbackExchangeRateService.GetExchangeRates | src/Concretes/FallbackExchangeRateService.php:144-147 | the repository's answer; no adapter is consulted |
| Fallback.FallbackExchangeRateService.GetAllExchangeRates | src/Concretes/FallbackExchangeRateService.php:154-157 | the repository's answer; no adapter is consulted |
| Fallback.FallbackExchangeRateService.GetHistoricalExchangeRates | src/Concretes/FallbackExchangeRateService.php:208-211 | the repository's answer; no adapter is consulted |
| Fallback.FallbackExchangeRateService.GetHistoricalExchangeRate | src/Concretes/FallbackExchangeRateService.php:222-225 | the repository's answer; no adapter is consulted |
| Fallback.FallbackExchangeRateService.GetCurrentService | src/Concretes/FallbackExchangeRateService.php:232-235 | the current service, null right after construction |
| Fallback.FallbackExchangeRateService.GetFallbackServices | src/Concretes/FallbackExchangeRateService.php:242-245 | the configured order |
| Fallback.FallbackExchangeRateService.SetFallbackServices | src/Concretes/FallbackExchangeRateService.php:253-256 | `getFallbackServices()` then returns exactly the given list; nothing else changes |
| Backfill.OrElse | src/Console/Commands/BackfillExchangeRatesCommand.php:42-43 | `?:` keeps a given non-zero year and falls back on a missing or zero one |
| Backfill.Currencies | src/Console/Commands/BackfillExchangeRatesCommand.php:41 | the given currency list, or USD, EUR, GBP when none is given; never empty |
| Backfill.Years | src/Console/Commands/BackfillExchangeRatesCommand.php:79 | `range(start, end)`: end − start + 1 consecutive years from start |
| Backfill.YearBatch | src/Console/Commands/BackfillExchangeRatesCommand.php:81-87 | one request per currency, in order, dated 1 January of the year |
| Backfill.Row | src/Console/Commands/BackfillExchangeRatesCommand.php:82-87 | one request per year for a currency, in year order |
| Backfill.Plan | src/Console/Commands/BackfillExchangeRatesCommand.php:76-88 | defines the nested loops, currencies outside and years inside; `PlanSize`, `PlanYears` and `PlanOfYear` state its size and contents |
| Backfill.Batches | src/Console/Commands/BackfillExchangeRatesCommand.php:102 | defines the bucketing by year; `PlanBatches` states that each year gets one batch of exactly its requests |
| Backfill.Tally | src/Console/Commands/BackfillExchangeRatesCommand.php:104-132 | the failure count is zero exactly when every batch either is stored or is empty |
| Backfill.HandleOutcome | src/Console/Commands/BackfillExchangeRatesCommand.php:36-179 | defines `handle`: refusal when the start year is after the end year or the service lacks historical support, else the batch loop; `ExitFailsIffSomeYearThrows` states its exit code |
| Backfill.ExitCode | src/Console/Commands/BackfillExchangeRatesCommand.php:179 | SUCCESS exactly when the run completed with no failure, FAILURE otherwise |
| Backfill.PlanSize | src/Console/Commands/BackfillExchangeRatesCommand.php:78-90 | the total is the number of currencies times the number of years |
| Backfill.PlanYears | src/Console/Commands/BackfillExchangeRatesCommand.php:78-88 | the distinct years of the plan, in order, are the year range |
| Backfill.RowOfYear | src/Console/Commands/BackfillExchangeRatesCommand.php:82-87 | a currency's row has exactly one request in each year |
| Backfill.PlanOfYear | src/Console/Commands/BackfillExchangeRatesCommand.php:78-88 | the plan's requests in one year are one per currency, in currency order |
| Backfill.BatchOfYear | src/Console/Commands/BackfillExchangeRatesCommand.php:102 | the batch at a year's position holds that year's requests |
| Backfill.PlanBatches | src/Console/Commands/BackfillExchangeRatesCommand.php:102-111 | the batches are keyed by the years in order, and each holds the year's requests, so each year gets exactly one bulk call |
| Backfill.FailureHasYear | src/Console/Commands/BackfillExchangeRatesCommand.php:120-121 | a positive failure count implies some year's batch threw |
| Backfill.YearFailureCounts | src/Console/Commands/BackfillExchangeRatesCommand.php:120-121 | a year whose batch throws makes the failure count positive |
| Backfill.FailuresIffSomeYearThrows | src/Console/Commands/BackfillExchangeRatesCommand.php:104-132 | failures are counted exactly when some year's batch throws |
| Backfill.ExitFailsIffSomeYearThrows | src/Console/Commands/BackfillExchangeRatesCommand.php:97-179 | a completed run exits with FAILURE exactly when some year in the range throws |
| Backfill.BuildPlan | src/Console/Commands/BackfillExchangeRatesCommand.php:78-88 | the nested loop builds the currency-major `Plan` |
| Backfill.CountBatches | src/Console/Commands/BackfillExchangeRatesCommand.php:97-132 | the batch loop computes `Tally`: successes add the result's count, failures the batch size |
| Backfill.Handle | src/Console/Commands/BackfillExchangeRatesCommand.php:36-180 | start after end is refused before any service is chosen; a service without historical support is refused before any work; otherwise the summary holds the plan size and both counters |
| EnumHelpers.Names | src/Traits/EnumHelpers.php:14-17 | one name per case, in `cases()` order |
| EnumHelpers.Values | src/Traits/EnumHelpers.php:24-27 | one value per case, in the same order and of the same length as the names |
| EnumHelpers.ValueNames | src/Traits/EnumHelpers.php:41-44 | `array()` has exactly the case values as keys |
| EnumHelpers.ValuesToString | src/Traits/EnumHelpers.php:85-88 | defines `valuesToString` as `implode` of the values with the separator; `ValuesListed` pins it for the providers enum |
| EnumHelpers.ValueNamesInverse | src/Traits/EnumHelpers.php:41-44 | for well-formed cases, `array()` maps each case's value to its name |
| EnumHelpers.FirstMatch | src/Traits/EnumHelpers.php:52-60 | the first case whose value or name equals the argument, none before it matching; none when no case matches |
| EnumHelpers.Search | src/Traits/EnumHelpers.php:52-60 | the loop returns the first matching case, or null |
| EnumHelpers.SearchFindsItsCase | src/Traits/EnumHelpers.php:52-60 | for well-formed cases whose values are no other case's name, searching a case's value or name finds that case |
| EnumHelpers.NamedIndex | src/Traits/EnumHelpers.php:74-83 | the first case whose name is exactly the method name; none exactly when it is not a name |
| EnumHelpers.CallStatic | src/Traits/EnumHelpers.php:74-83 | a case name answers its value; any other name throws "[Class\EnumHelpers] Method [m] does not exist." |
| EnumHelpers.CallStaticOfName | src/Traits/EnumHelpers.php:74-83 | for well-formed cases, calling a case's name finds that very case |
| EnumHelpers.Lower | src/Traits/EnumHelpers.php:93 | `strtolower` on a character never yields an upper-case letter, and keeps delimiters and `_` as they are |
| EnumHelpers.Upper | src/Traits/EnumHelpers.php:92 | `ucwords` on a word's first character never yields a lower-case letter, and keeps delimiters and `_` as they are |
| EnumHelpers.Displayed | src/Traits/EnumHelpers.php:90-101 | `ucwords(strtolower(str_replace('_', ' ', v)))` has the input's length, and lowered again each character is the lowered input character, with `_` read as a space |
| EnumHelpers.DisplayedShape | src/Traits/EnumHelpers.php:90-101 | a display name has no `_`, no lower-case letter at a word start and no upper-case letter elsewhere |
| EnumHelpers.DisplayedLast | src/Traits/EnumHelpers.php:90-101 | the last character of a display name is a word delimiter exactly when the value's last character is a delimiter or `_` |
| EnumHelpers.DisplayName | src/Traits/EnumHelpers.php:90-101 | defines `displayName()` as `Displayed` of the case value; `DisplayedShape` states its capitalisation |
| ProvidersEnum.Cases | src/Enums/ExchangeRateProvidersEnum.php:17-18 | the cases have distinct names and distinct values, and `names()` equals `values()` |
| ProvidersEnum.ValuesListed | src/Enums/ExchangeRateProvidersEnum.php:17-18 | `values()` is ["CONFIGURABLE", "PDO"], `valuesToString()` is "CONFIGURABLE,PDO", and `array()` maps each value to its name |
| ProvidersEnum.DisplayNames | src/Enums/ExchangeRateProvidersEnum.php:17-18 | the display names are "Configurable" and "Pdo" |
| ProvidersEnum.CasesAreFound | src/Enums/ExchangeRateProvidersEnum.php:17-18 | searching "CONFIGURABLE" or "PDO" finds its case and "pdo" finds none; `PDO()` is a case and `Pdo()` is not |

## Left out

- HTTP transport, JSON decoding and response validation are left out. Each adapter receives a function from request path to a parsed response or an exception. A response is assumed well-formed once parsed.
- `Cache::remember` in the World Bank adapter is left out, because the cached value equals the closure's value. The model always computes it.
- Logging, `logTime`/`TimeLoggable`, the console's progress bar, its info lines and its summary table are left out; they write output only.
- The service container, configuration and base URLs are left out. `app()->make` becomes a function from class name to an instance or an error. The fallback order is a constructor parameter (`null` means the default).
- Carbon parsing is left out. `Carbon::parse(lastupdated)` becomes an already parsed instant or nothing. Time zones are UTC.
- `Carbon::create` with out-of-range month or day overflow is not modelled. A date is kept as the given year, month and day.
- WorldBank.Sources: `extractExchangeRatesForCurrency`, `extractExchangeRatesForMultipleCurrencies`, `fetchAllPages` and `getProviderName` are uninterpreted functions and a constant. `WorldBankExchangeRateHelper` is not part of this model.
- WorldBank.WorldBankExchangeRateApiService.FetchWorldBankData: the further page requests `fetchAllPages` makes for pages 2 onwards are not added to the `sent` log.
- WorldBank.YearDtos: the `lastupdated` field is treated as present or absent. A present but falsy string (`""` or `"0"`) is not distinguished from a real date.
- Database drivers, migrations, the `decimal(20,10)` column type and the `created_at`/`updated_at` timestamps are not modelled. Rates are exact reals.
- Models.Database.CreateOrUpdateHistory: the exception message is SQLite's `no such column` text without Laravel's SQL and connection suffix.
- Models.Database.CreateOrUpdateRate: the attributes are a complete row that replaces the stored row whole. An attribute array that leaves keys out (an `update` of only the given columns, or a missing base or target that becomes an `IS NULL` lookup that never matches) is not modelled. The same holds for Models.Database.CreateOrUpdateHistoryOfDay.
- Database drivers: the upsert is MySQL's and SQLite's, which apply a batch row by row in list order. PostgreSQL, which rejects a batch that repeats a conflict key, is not modelled; RateRows.ReciprocalBulkOverwrite shows the list-order outcome.
- Rate arrays (`Dtos.Rates`) are PHP arrays, so their codes are distinct; the lemmas that read entries back (RateRows.CurrentRowsCarry and those built on it) state this as `DistinctCodes`.
- `Carbon::now()` is one parameter per call. The source calls it once per row, and the model gives every row of one call the same instant.
- Repository.CurrencyExchangeRateRepository.UpdateExchangeRates and the other updates answer whether rows were sent to the upsert, not the driver's affected-row count.
- Fallback.Calls: the fallback service sees each adapter's store operations through a `Calls` oracle. The adapters themselves are modelled in their own modules, and nothing ties the two together. A `Throwable` that is not an `Exception` is not modelled.
- Fallback.FallbackExchangeRateService.TryWithFallback: the service instances `app()->make` returns for a class are values; an adapter's own state across calls is not carried into the fallback service.
- Backfill.Service: the chosen service's `storeBulkHistoricalExchangeRatesForMultipleCurrencies` is a stateless function from a batch to a count or an exception. Its effect on the database is not modelled here. It is modelled in the adapter modules.
- Backfill.OrElse: option strings are taken as already converted integers; a non-numeric `--start-year` or `--end-year` is not modelled.
- Backfill.Tally: the contract states when the failure count is zero; the success count is stated by its definition, the sum of the result counts.
- EnumHelpers.Search and EnumHelpers.FirstMatch: PHP's loose `==` is modelled as exact string equality. Loose comparison of numeric strings (`"1" == "01"`) is not modelled.
- EnumHelpers.ValueNames: `array()` is a map, so the order of its entries is not kept.
- ProvidersEnum.Cases: `ExchangeRateProvidersEnum` imports the trait as `BC\ExchangeRates\Traits\EnumHelpers`, while the trait is declared in `Brights\ExchangeRates\Traits`, so as written the enum does not load. The model binds the enum to the trait as evidently intended; the autoloading failure is not modelled.
- Calendar.FromUnix: only the time of day is stated in its contract; the civil date it computes is proved only for the two sample instants.
- The loops of `tryWithFallback`, `handle`, the repository updates and the adapters' DTO building are methods on sequences beside their classes (`Fallback.Scan`, `Backfill.BuildPlan`, `Repository.BuildCurrentRows` and others). The class methods call them, so the loop's effect on the object is the method's contract.

## Findings

| source | as written | input that shows it | evidently intended | confidence | as-written member | corrected member |
|---|---|---|---|---|---|---|
| src/Models/CurrencyExchangeRateHistory.php:85-90 | the lookup filters on `last_update_timestamp` and `next_update_timestamp`, which neither the history migration nor `$fillable` has, so every call raises a `QueryException` | `createOrUpdate(['base_currency_code' => 'USD', 'target_currency_code' => 'EUR', 'exchange_rate' => 0.9, 'date_time' => ...])`, or any other array | find the row of the same base, target and `date_time` (the table's unique key), then update it or create one | medium; not executed | Models.Database.CreateOrUpdateHistory, with Models.HistoryLookupHasMissingColumn | Models.Database.CreateOrUpdateHistoryOfDay |
