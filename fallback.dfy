/**
 * `FallbackExchangeRateService`: tries the configured adapters in order
 * and answers with the first real result. Resolving a class string from
 * the container and the adapters' own store calls are parameters here:
 * the adapters' behaviour is modelled in their own modules.
 */
module Fallback {
  import opened Wrappers
  import opened Calendar
  import opened Dtos
  import opened Collections
  import opened Models
  import opened Repository

  /** A resolved adapter instance: its class and the two interfaces it may implement. */
  datatype Service = Service(className: string, isRateService: bool, supportsHistorical: bool)

  /** What one call of an operation gives back, as `tryWithFallback` tells the cases apart. */
  datatype Outcome<V> = Throws(message: string) | EmptyColl | NullOrFalse | Value(value: V)

  /** What one turn of the loop does with one class string. */
  datatype Attempt<V> = Skipped | Threw(message: string) | Rejected | Succeeded(service: Service, value: V)

  /** The adapters' store operations, as the container's instances answer them. */
  datatype Calls = Calls(
    storeExchangeRates: (Service, Code) -> Result<seq<ExchangeRate>>,
    storeBulk: (Service, seq<Code>) -> Result<seq<Group<Code, ExchangeRate>>>,
    storeHistorical: (Service, Code, Instant) -> Result<seq<RateHistory>>,
    storeBulkHistorical: (Service, seq<HistoricalBaseCurrencyDto>) -> Result<seq<Group<Code, Group<string, RateHistory>>>>)

  const ExchangeRateApiClass := "BrightCreations\\ExchangeRates\\Concretes\\ExchangeRateApiService"
  const OpenExchangeRateClass := "BrightCreations\\ExchangeRates\\Concretes\\OpenExchangeRateService"
  const WorldBankClass := "BrightCreations\\ExchangeRates\\Concretes\\WorldBankExchangeRateApiService"

  /** The order used when `exchange-rates.fallback_order` is not configured. */
  function DefaultOrder(): (r: seq<string>)
    ensures |r| == 3 && r[0] == ExchangeRateApiClass && r[1] == OpenExchangeRateClass && r[2] == WorldBankClass
  {
    [ExchangeRateApiClass, OpenExchangeRateClass, WorldBankClass]
  }

  const NotHistoricalMessage := "Service does not support historical exchange rates"

  /** The message of the `RuntimeException` thrown once every adapter has failed. */
  function AllFailedMessage(name: string, last: Option<string>): string {
    "All exchange rate services failed for operation: " + name + ". Last error: "
      + (if last.Some? then last.value else "Unknown error")
  }

  /** One turn of the loop: `app()->make`, the interface check, the call and the emptiness checks. */
  function Step<V>(make: string -> Result<Service>, cls: string, op: Service -> Outcome<V>): (a: Attempt<V>)
    ensures a.Succeeded? ==> make(cls) == Ok(a.service) && a.service.isRateService && op(a.service) == Value(a.value)
    ensures a.Skipped? <==> make(cls).Ok? && !make(cls).value.isRateService
  {
    match make(cls)
    case Err(e) => Threw(e.message)
    case Ok(service) =>
      if !service.isRateService then Skipped
      else match op(service)
        case Throws(m) => Threw(m)
        case EmptyColl => Rejected
        case NullOrFalse => Rejected
        case Value(v) => Succeeded(service, v)
  }

  /** The index of the first class string whose turn succeeds. */
  function FirstSuccess<V>(make: string -> Result<Service>, s: seq<string>, op: Service -> Outcome<V>): (k: Option<nat>)
    ensures k.Some? ==>
      k.value < |s| && Step(make, s[k.value], op).Succeeded? &&
      forall j :: 0 <= j < k.value ==> !Step(make, s[j], op).Succeeded?
    ensures k.None? ==> forall j :: 0 <= j < |s| ==> !Step(make, s[j], op).Succeeded?
    decreases |s|
  {
    if s == [] then None
    else if Step(make, s[0], op).Succeeded? then Some(0)
    else match FirstSuccess(make, s[1..], op)
      case None => None
      case Some(j) => Some(j + 1)
  }

  /** `$lastException` after the turns over `s`: the message of the last turn that threw. */
  function LastThrow<V>(make: string -> Result<Service>, s: seq<string>, op: Service -> Outcome<V>): Option<string>
    decreases |s|
  {
    if s == [] then None
    else
      var n := |s| - 1;
      var a := Step(make, s[n], op);
      if a.Threw? then Some(a.message) else LastThrow(make, s[..n], op)
  }

  /** `$lastException` is unset exactly when no turn threw, and otherwise holds the message of the last turn that did. */
  lemma {:induction false} LastThrowMeaning<V>(make: string -> Result<Service>, s: seq<string>, op: Service -> Outcome<V>)
    ensures LastThrow(make, s, op).None? <==> forall j :: 0 <= j < |s| ==> !Step(make, s[j], op).Threw?
    ensures LastThrow(make, s, op).Some? ==>
      exists j :: 0 <= j < |s| && Step(make, s[j], op) == Threw(LastThrow(make, s, op).value)
        && forall i :: j < i < |s| ==> !Step(make, s[i], op).Threw?
    decreases |s|
  {
    if s != [] {
      var n := |s| - 1;
      if !Step(make, s[n], op).Threw? {
        LastThrowMeaning(make, s[..n], op);
        assert forall j :: 0 <= j < n ==> s[..n][j] == s[j];
      }
    }
  }

  /** The instances whose operation was called, in order (the "Trying" log lines). */
  function Invoked(make: string -> Result<Service>, s: seq<string>): seq<Service>
    decreases |s|
  {
    if s == [] then []
    else
      var n := |s| - 1;
      Invoked(make, s[..n]) + (if make(s[n]).Ok? && make(s[n]).value.isRateService then [make(s[n]).value] else [])
  }

  /** At most one call per class string, and only on rate services made from the listed classes. */
  lemma {:induction false} InvokedMeaning(make: string -> Result<Service>, s: seq<string>)
    ensures |Invoked(make, s)| <= |s|
    ensures forall x :: x in Invoked(make, s) ==> x.isRateService && exists j :: 0 <= j < |s| && make(s[j]) == Ok(x)
    decreases |s|
  {
    if s != [] {
      var n := |s| - 1;
      InvokedMeaning(make, s[..n]);
      assert forall j :: 0 <= j < n ==> s[..n][j] == s[j];
    }
  }

  /** How many class strings the loop takes up: through the winner, or all of them. */
  function Reach<V>(make: string -> Result<Service>, s: seq<string>, op: Service -> Outcome<V>): (n: nat)
    ensures n <= |s|
  {
    match FirstSuccess(make, s, op)
    case Some(k) => k + 1
    case None => |s|
  }

  /** The answer of `tryWithFallback`: the first real result, or the all-failed exception. */
  function Fallback<V>(make: string -> Result<Service>, s: seq<string>, op: Service -> Outcome<V>, name: string): (r: Result<V>)
    ensures r.Err? ==> r.error == Exception(Runtime, AllFailedMessage(name, LastThrow(make, s, op)))
  {
    match FirstSuccess(make, s, op)
    case Some(k) => Ok(Step(make, s[k], op).value)
    case None => Err(Exception(Runtime, AllFailedMessage(name, LastThrow(make, s, op))))
  }

  /** `currentService` after `tryWithFallback`: the winner, or what it was before. */
  function Chosen<V>(make: string -> Result<Service>, s: seq<string>, op: Service -> Outcome<V>, current: Option<Service>): Option<Service> {
    match FirstSuccess(make, s, op)
    case Some(k) => Some(Step(make, s[k], op).service)
    case None => current
  }

  // ------------------------------------------------------------ operations

  /** An adapter's collection as `tryWithFallback` sees it: an exception, empty, or a value. */
  function Collected<T>(r: Result<seq<T>>): (o: Outcome<seq<T>>)
    ensures o.Value? <==> r.Ok? && r.value != []
    ensures o.Value? ==> o.value == r.value
    ensures o.Throws? <==> r.Err?
    ensures o.Throws? ==> o.message == r.error.message
    ensures !o.NullOrFalse?
  {
    match r
    case Err(e) => Throws(e.message)
    case Ok(v) => if v == [] then EmptyColl else Value(v)
  }

  function CurrentOp(calls: Calls, code: Code): Service -> Outcome<seq<ExchangeRate>> {
    (s: Service) => Collected(calls.storeExchangeRates(s, code))
  }

  function BulkOp(calls: Calls, codes: seq<Code>): Service -> Outcome<seq<Group<Code, ExchangeRate>>> {
    (s: Service) => Collected(calls.storeBulk(s, codes))
  }

  /** The historical closures throw for an instance without historical support. */
  function HistoricalOp(calls: Calls, code: Code, dateTime: Instant): Service -> Outcome<seq<RateHistory>> {
    (s: Service) => if !s.supportsHistorical then Throws(NotHistoricalMessage) else Collected(calls.storeHistorical(s, code, dateTime))
  }

  function BulkHistoricalOp(calls: Calls, requests: seq<HistoricalBaseCurrencyDto>)
    : Service -> Outcome<seq<Group<Code, Group<string, RateHistory>>>>
  {
    (s: Service) => if !s.supportsHistorical then Throws(NotHistoricalMessage) else Collected(calls.storeBulkHistorical(s, requests))
  }

  function CurrentName(code: Code): string {
    "storeExchangeRates(" + code + ")"
  }

  function HistoricalName(code: Code): string {
    "storeHistoricalExchangeRates(" + code + ")"
  }

  const BulkName := "storeBulkExchangeRatesForMultipleCurrencies"
  const BulkHistoricalName := "storeBulkHistoricalExchangeRatesForMultipleCurrencies"

  // ---------------------------------------------------------------- lemmas

  /**
   * The answer is that of the first class string, in order, whose turn
   * neither throws nor yields an empty collection or null/false.
   */
  lemma FirstRealResultWins<V>(make: string -> Result<Service>, s: seq<string>, op: Service -> Outcome<V>, name: string, k: nat)
    requires k < |s| && Step(make, s[k], op).Succeeded?
    requires forall j :: 0 <= j < k ==> !Step(make, s[j], op).Succeeded?
    ensures Fallback(make, s, op, name) == Ok(Step(make, s[k], op).value)
    ensures Chosen(make, s, op, None) == Some(Step(make, s[k], op).service)
    ensures Reach(make, s, op) == k + 1
    ensures FirstSuccess(make, s, op) == Some(k)
  {
    var f := FirstSuccess(make, s, op);
    assert f.Some? && f.value <= k;
  }

  /** When no turn succeeds, every class string is tried and the all-failed exception is raised. */
  lemma NoneSucceeds<V>(make: string -> Result<Service>, s: seq<string>, op: Service -> Outcome<V>, name: string)
    requires forall j :: 0 <= j < |s| ==> !Step(make, s[j], op).Succeeded?
    ensures FirstSuccess(make, s, op).None? && Reach(make, s, op) == |s|
    ensures Fallback(make, s, op, name) == Err(Exception(Runtime, AllFailedMessage(name, LastThrow(make, s, op))))
  {
    var f := FirstSuccess(make, s, op);
    assert f.None?;
  }

  /** Class strings after the winner change nothing: they are never tried. */
  lemma {:induction false} LaterServicesIgnored<V>(make: string -> Result<Service>, s: seq<string>, rest: seq<string>, op: Service -> Outcome<V>)
    requires FirstSuccess(make, s, op).Some?
    ensures FirstSuccess(make, s + rest, op) == FirstSuccess(make, s, op)
    decreases |s|
  {
    if !Step(make, s[0], op).Succeeded? {
      assert (s + rest)[1..] == s[1..] + rest;
      LaterServicesIgnored(make, s[1..], rest, op);
    }
  }

  /**
   * A turn that is skipped, or whose result is empty or null/false,
   * leaves `$lastException` as it was; one that throws replaces it.
   */
  lemma LastThrowOfTurn<V>(make: string -> Result<Service>, s: seq<string>, cls: string, op: Service -> Outcome<V>)
    ensures !Step(make, cls, op).Threw? ==> LastThrow(make, s + [cls], op) == LastThrow(make, s, op)
    ensures Step(make, cls, op).Threw? ==> LastThrow(make, s + [cls], op) == Some(Step(make, cls, op).message)
  {
    assert (s + [cls])[..|s|] == s;
  }

  /** What one more turn adds to `$lastException` and to the instances called. */
  lemma TurnEffect<V>(make: string -> Result<Service>, s: seq<string>, i: nat, op: Service -> Outcome<V>)
    requires i < |s|
    ensures LastThrow(make, s[..i + 1], op)
      == (if Step(make, s[i], op).Threw? then Some(Step(make, s[i], op).message) else LastThrow(make, s[..i], op))
    ensures Invoked(make, s[..i + 1])
      == Invoked(make, s[..i]) + (if make(s[i]).Ok? && make(s[i]).value.isRateService then [make(s[i]).value] else [])
  {
    assert s[..i + 1][..i] == s[..i];
  }

  /** When every turn fails and none threw, the message ends with "Unknown error". */
  lemma UnknownErrorWhenNothingThrew<V>(make: string -> Result<Service>, s: seq<string>, op: Service -> Outcome<V>, name: string)
    requires forall j :: 0 <= j < |s| ==> Step(make, s[j], op).Skipped? || Step(make, s[j], op).Rejected?
    ensures Fallback(make, s, op, name)
      == Err(Exception(Runtime, "All exchange rate services failed for operation: " + name + ". Last error: Unknown error"))
  {
    LastThrowMeaning(make, s, op);
    assert FirstSuccess(make, s, op).None?;
  }

  /**
   * A resolvable rate service without historical support fails a
   * historical store by throwing: it is not skipped, and its message
   * becomes the last error.
   */
  lemma NotHistoricalThrows(make: string -> Result<Service>, cls: string, calls: Calls, code: Code, dateTime: Instant,
                            requests: seq<HistoricalBaseCurrencyDto>)
    requires make(cls).Ok? && make(cls).value.isRateService && !make(cls).value.supportsHistorical
    ensures Step(make, cls, HistoricalOp(calls, code, dateTime)) == Threw(NotHistoricalMessage)
    ensures Step(make, cls, BulkHistoricalOp(calls, requests)) == Threw(NotHistoricalMessage)
  {
  }

  /** The store wrappers never answer with an empty collection. */
  lemma StoreAnswersAreNonEmpty(make: string -> Result<Service>, s: seq<string>, calls: Calls, code: Code)
    ensures Fallback(make, s, CurrentOp(calls, code), CurrentName(code)).Ok? ==>
      Fallback(make, s, CurrentOp(calls, code), CurrentName(code)).value != []
  {
    var f := FirstSuccess(make, s, CurrentOp(calls, code));
    if f.Some? {
      var a := Step(make, s[f.value], CurrentOp(calls, code));
      assert Collected(calls.storeExchangeRates(a.service, code)) == Value(a.value);
    }
  }

  // ------------------------------------------------------------------ loop

  /**
   * The body of one turn: resolve the class string, skip an instance that
   * is not a rate service, call the operation and tell its outcome apart.
   * `called` is the instance whose operation was called, if any.
   */
  method Turn<V>(make: string -> Result<Service>, cls: string, op: Service -> Outcome<V>)
    returns (a: Attempt<V>, called: seq<Service>)
    ensures a == Step(make, cls, op)
    ensures called == (if make(cls).Ok? && make(cls).value.isRateService then [make(cls).value] else [])
  {
    var made := make(cls);
    if made.Err? {
      return Threw(made.error.message), [];
    }
    var service := made.value;
    if !service.isRateService {
      return Skipped, [];
    }
    called := [service];
    var result := op(service);
    match result {
      case Throws(m) => a := Threw(m);
      case EmptyColl => a := Rejected;
      case NullOrFalse => a := Rejected;
      case Value(v) => a := Succeeded(service, v);
    }
  }

  /**
   * The loop of `tryWithFallback` over the class strings `s`, up to where
   * it stops: `i` is the index of the winning turn `a`, or `|s|` when no
   * turn succeeds; `last` is `$lastException` and `invoked` the instances
   * whose operation was called.
   */
  method Walk<V>(make: string -> Result<Service>, s: seq<string>, op: Service -> Outcome<V>)
    returns (i: nat, a: Attempt<V>, last: Option<string>, invoked: seq<Service>)
    ensures i <= |s| && FirstSuccess(make, s, op) == (if i < |s| then Some(i) else None)
    ensures i < |s| ==> a == Step(make, s[i], op)
    ensures i == |s| ==> last == LastThrow(make, s, op)
    ensures Reach(make, s, op) <= |s| && invoked == Invoked(make, s[..Reach(make, s, op)])
  {
    last := None;
    invoked := [];
    i := 0;
    a := Skipped;
    while i < |s|
      invariant 0 <= i <= |s|
      invariant forall j :: 0 <= j < i ==> !Step(make, s[j], op).Succeeded?
      invariant last == LastThrow(make, s[..i], op)
      invariant invoked == Invoked(make, s[..i])
    {
      TurnEffect(make, s, i, op);
      var called;
      a, called := Turn(make, s[i], op);
      invoked := invoked + called;
      if a.Succeeded? {
        FirstRealResultWins(make, s, op, "", i);
        return;
      }
      if a.Threw? {
        last := Some(a.message);
      }
      ghost var failed := !Step(make, s[i], op).Succeeded?;
      assert failed;
      forall j | 0 <= j < i + 1 ensures !Step(make, s[j], op).Succeeded? {
        if j == i { assert failed; }
      }
      i := i + 1;
    }
    assert s[..i] == s;
    NoneSucceeds(make, s, op, "");
  }

  /**
   * `tryWithFallback` over the class strings `s`: the answer, the instance
   * to record as `currentService` on success, and the instances whose
   * operation was called.
   */
  method Scan<V>(make: string -> Result<Service>, s: seq<string>, op: Service -> Outcome<V>, name: string)
    returns (r: Result<V>, winner: Option<Service>, invoked: seq<Service>)
    ensures r == Fallback(make, s, op, name)
    ensures winner.Some? <==> FirstSuccess(make, s, op).Some?
    ensures winner.Some? ==> winner == Chosen(make, s, op, None)
    ensures invoked == Invoked(make, s[..Reach(make, s, op)])
  {
    var i, a, last;
    i, a, last, invoked := Walk(make, s, op);
    if i < |s| {
      assert FirstSuccess(make, s, op) == Some(i) && a.Succeeded?;
      assert Fallback(make, s, op, name) == Ok(a.value);
      r, winner := Ok(a.value), Some(a.service);
    } else {
      assert FirstSuccess(make, s, op).None? && last == LastThrow(make, s, op);
      r, winner := Err(Exception(Runtime, AllFailedMessage(name, last))), None;
    }
  }

  // ----------------------------------------------------------------- class

  class FallbackExchangeRateService {
    const repo: CurrencyExchangeRateRepository
    /** `app()->make($serviceClass)`: an instance, or the exception resolution throws. */
    const make: string -> Result<Service>
    const calls: Calls
    var fallbackServices: seq<string>
    var currentService: Option<Service>
    /** The instances whose operation was called, in order. */
    var tried: seq<Service>

    /** `configured` is the value of `exchange-rates.fallback_order`, when set. */
    constructor (repo: CurrencyExchangeRateRepository, make: string -> Result<Service>, calls: Calls, configured: Option<seq<string>>)
      ensures this.repo == repo && this.make == make && this.calls == calls
      ensures fallbackServices == (if configured.Some? then configured.value else DefaultOrder())
      ensures currentService == None && tried == []
    {
      this.repo := repo;
      this.make := make;
      this.calls := calls;
      fallbackServices := if configured.Some? then configured.value else DefaultOrder();
      currentService := None;
      tried := [];
    }

    /** `tryWithFallback($operation, $operationName)`. */
    method TryWithFallback<V>(op: Service -> Outcome<V>, name: string) returns (r: Result<V>)
      modifies this
      ensures fallbackServices == old(fallbackServices)
      ensures r == Fallback(make, fallbackServices, op, name)
      ensures currentService == Chosen(make, fallbackServices, op, old(currentService))
      ensures tried == old(tried) + Invoked(make, fallbackServices[..Reach(make, fallbackServices, op)])
    {
      var winner, invoked;
      r, winner, invoked := Scan(make, fallbackServices, op, name);
      tried := tried + invoked;
      if winner.Some? {
        currentService := winner;
      }
    }

    method StoreExchangeRates(code: Code) returns (r: Result<seq<ExchangeRate>>)
      modifies this
      ensures fallbackServices == old(fallbackServices)
      ensures r == Fallback(make, fallbackServices, CurrentOp(calls, code), CurrentName(code))
      ensures currentService == Chosen(make, fallbackServices, CurrentOp(calls, code), old(currentService))
      ensures tried == old(tried) + Invoked(make, fallbackServices[..Reach(make, fallbackServices, CurrentOp(calls, code))])
    {
      r := TryWithFallback(CurrentOp(calls, code), CurrentName(code));
    }

    method StoreBulkExchangeRatesForMultipleCurrencies(codes: seq<Code>) returns (r: Result<seq<Group<Code, ExchangeRate>>>)
      modifies this
      ensures fallbackServices == old(fallbackServices)
      ensures r == Fallback(make, fallbackServices, BulkOp(calls, codes), BulkName)
      ensures currentService == Chosen(make, fallbackServices, BulkOp(calls, codes), old(currentService))
      ensures tried == old(tried) + Invoked(make, fallbackServices[..Reach(make, fallbackServices, BulkOp(calls, codes))])
    {
      r := TryWithFallback(BulkOp(calls, codes), BulkName);
    }

    method StoreHistoricalExchangeRates(code: Code, dateTime: Instant) returns (r: Result<seq<RateHistory>>)
      modifies this
      ensures fallbackServices == old(fallbackServices)
      ensures r == Fallback(make, fallbackServices, HistoricalOp(calls, code, dateTime), HistoricalName(code))
      ensures currentService == Chosen(make, fallbackServices, HistoricalOp(calls, code, dateTime), old(currentService))
      ensures tried == old(tried) + Invoked(make, fallbackServices[..Reach(make, fallbackServices, HistoricalOp(calls, code, dateTime))])
    {
      r := TryWithFallback(HistoricalOp(calls, code, dateTime), HistoricalName(code));
    }

    method StoreBulkHistoricalExchangeRatesForMultipleCurrencies(requests: seq<HistoricalBaseCurrencyDto>)
      returns (r: Result<seq<Group<Code, Group<string, RateHistory>>>>)
      modifies this
      ensures fallbackServices == old(fallbackServices)
      ensures r == Fallback(make, fallbackServices, BulkHistoricalOp(calls, requests), BulkHistoricalName)
      ensures currentService == Chosen(make, fallbackServices, BulkHistoricalOp(calls, requests), old(currentService))
      ensures tried == old(tried) + Invoked(make, fallbackServices[..Reach(make, fallbackServices, BulkHistoricalOp(calls, requests))])
    {
      r := TryWithFallback(BulkHistoricalOp(calls, requests), BulkHistoricalName);
    }

    /** `getExchangeRates($code)`: the repository's answer; no adapter is consulted. */
    function GetExchangeRates(code: Code): (r: seq<ExchangeRate>)
      reads repo.db
      ensures r == repo.GetExchangeRates(code)
    {
      repo.GetExchangeRates(code)
    }

    function GetAllExchangeRates(): (r: seq<ExchangeRate>)
      reads repo.db
      ensures r == repo.GetAllExchangeRates()
    {
      repo.GetAllExchangeRates()
    }

    function GetHistoricalExchangeRates(code: Code, dateTime: Instant): (r: seq<RateHistory>)
      reads repo.db
      ensures r == repo.GetHistoricalExchangeRates(code, dateTime)
    {
      repo.GetHistoricalExchangeRates(code, dateTime)
    }

    function GetHistoricalExchangeRate(code: Code, target: Code, dateTime: Instant): (r: Result<RateHistory>)
      reads repo.db
      ensures r == repo.GetHistoricalExchangeRate(code, target, dateTime)
    {
      repo.GetHistoricalExchangeRate(code, target, dateTime)
    }

    function GetCurrentService(): (r: Option<Service>)
      reads this
      ensures r == currentService
    {
      currentService
    }

    function GetFallbackServices(): (r: seq<string>)
      reads this
      ensures r == fallbackServices
    {
      fallbackServices
    }

    method SetFallbackServices(services: seq<string>)
      modifies this
      ensures GetFallbackServices() == services
      ensures currentService == old(currentService) && tried == old(tried)
    {
      fallbackServices := services;
    }
  }
}
