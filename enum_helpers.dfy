/**
 * The `EnumHelpers` trait of the string-backed enums: lists of names and
 * values, the value-to-name array, lookup by value or name, calling a
 * case name as a static method, and display names. An enum is its
 * `cases()`, in declaration order.
 */
module EnumHelpers {
  import opened Wrappers
  import opened Collections

  datatype Case = Case(name: string, value: string)

  /** What PHP demands of a backed enum: no two cases share a name or a value. */
  ghost predicate WellFormed(cases: seq<Case>) {
    forall i, j :: 0 <= i < j < |cases| ==> cases[i].name != cases[j].name && cases[i].value != cases[j].value
  }

  function NameOf(c: Case): string {
    c.name
  }

  function ValueOf(c: Case): string {
    c.value
  }

  /** `names()`: `array_column(static::cases(), 'name')`. */
  function Names(cases: seq<Case>): (r: seq<string>)
    ensures |r| == |cases| && forall i :: 0 <= i < |cases| ==> r[i] == cases[i].name
  {
    MapSeq(cases, NameOf)
  }

  /** `values()`: `array_column(static::cases(), 'value')`. */
  function Values(cases: seq<Case>): (r: seq<string>)
    ensures |r| == |cases| && forall i :: 0 <= i < |cases| ==> r[i] == cases[i].value
  {
    MapSeq(cases, ValueOf)
  }

  /** `array()`: `array_combine(values(), names())`, a later value overwriting an earlier one. */
  function ValueNames(cases: seq<Case>): (r: map<string, string>)
    ensures r.Keys == set i | 0 <= i < |cases| :: cases[i].value
    decreases |cases|
  {
    if cases == [] then map[]
    else
      var n := |cases| - 1;
      var m := ValueNames(cases[..n]);
      assert forall i :: 0 <= i < n ==> cases[..n][i] == cases[i];
      m[cases[n].value := cases[n].name]
  }

  /** Every value of a well-formed enum maps back to its own case's name. */
  lemma {:induction false} ValueNamesInverse(cases: seq<Case>, i: nat)
    requires WellFormed(cases) && i < |cases|
    ensures ValueNames(cases)[cases[i].value] == cases[i].name
    decreases |cases|
  {
    var n := |cases| - 1;
    if i < n {
      assert WellFormed(cases[..n]);
      assert cases[..n][i] == cases[i];
      ValueNamesInverse(cases[..n], i);
      assert cases[i].value != cases[n].value;
    }
  }

  /** Whether `search($type)` accepts a case: its value or its name is `$type`. */
  predicate Matches(c: Case, t: string) {
    c.value == t || c.name == t
  }

  /** The index of the first case `search` accepts. */
  function FirstMatch(cases: seq<Case>, t: string): (k: Option<nat>)
    ensures k.Some? ==>
      k.value < |cases| && Matches(cases[k.value], t) &&
      forall j :: 0 <= j < k.value ==> !Matches(cases[j], t)
    ensures k.None? ==> forall j :: 0 <= j < |cases| ==> !Matches(cases[j], t)
    decreases |cases|
  {
    if cases == [] then None
    else if Matches(cases[0], t) then Some(0)
    else match FirstMatch(cases[1..], t)
      case None => None
      case Some(j) => Some(j + 1)
  }

  /** `search($type)`: the first case whose value or name is `$type`, or null. */
  method Search(cases: seq<Case>, t: string) returns (r: Option<Case>)
    ensures r == (if FirstMatch(cases, t).Some? then Some(cases[FirstMatch(cases, t).value]) else None)
  {
    var i := 0;
    while i < |cases|
      invariant 0 <= i <= |cases|
      invariant forall j :: 0 <= j < i ==> !Matches(cases[j], t)
    {
      if cases[i].value == t || cases[i].name == t {
        return Some(cases[i]);
      }
      i := i + 1;
    }
    return None;
  }

  /** In a well-formed enum where no value is another case's name, `search` finds a case by its value and by its name. */
  lemma SearchFindsItsCase(cases: seq<Case>, i: nat)
    requires WellFormed(cases) && i < |cases|
    requires forall j, l :: 0 <= j < |cases| && 0 <= l < |cases| && j != l ==> cases[j].value != cases[l].name
    ensures FirstMatch(cases, cases[i].value) == Some(i)
    ensures FirstMatch(cases, cases[i].name) == Some(i)
  {
    forall j | 0 <= j < |cases| && j != i
      ensures !Matches(cases[j], cases[i].value) && !Matches(cases[j], cases[i].name)
    {
      if j < i {
        assert cases[j].name != cases[i].name && cases[j].value != cases[i].value;
      } else {
        assert cases[i].name != cases[j].name && cases[i].value != cases[j].value;
      }
    }
  }

  /** The exception `__callStatic` throws for a name that is no case; the `\E` is kept as written. */
  function NoSuchMethodMessage(className: string, method_: string): string {
    "[" + className + "\\EnumHelpers] Method [" + method_ + "] does not exist."
  }

  /** The index of the first case named exactly `method_`. */
  function NamedIndex(cases: seq<Case>, method_: string): (k: Option<nat>)
    ensures k.Some? ==>
      k.value < |cases| && cases[k.value].name == method_ &&
      forall j :: 0 <= j < k.value ==> cases[j].name != method_
    ensures k.None? <==> method_ !in Names(cases)
    decreases |cases|
  {
    if cases == [] then None
    else if cases[0].name == method_ then Some(0)
    else
      assert Names(cases)[1..] == Names(cases[1..]);
      match NamedIndex(cases[1..], method_)
      case None => None
      case Some(j) => Some(j + 1)
  }

  /** `__callStatic($method, $args)`: the value of the case named `$method`, else the exception. */
  method CallStatic(cases: seq<Case>, className: string, method_: string) returns (r: Result<string>)
    ensures r.Ok? <==> method_ in Names(cases)
    ensures r.Ok? ==> r.value == cases[NamedIndex(cases, method_).value].value
    ensures r.Err? ==> r.error == Exception(Generic, NoSuchMethodMessage(className, method_))
  {
    var i := 0;
    while i < |cases|
      invariant 0 <= i <= |cases|
      invariant forall j :: 0 <= j < i ==> cases[j].name != method_
    {
      if cases[i].name == method_ {
        NamedIndexAt(cases, method_, i);
        return Ok(cases[i].value);
      }
      i := i + 1;
    }
    assert forall j :: 0 <= j < |cases| ==> Names(cases)[j] != method_;
    return Err(Exception(Generic, NoSuchMethodMessage(className, method_)));
  }

  /** The first case named `method_` is the one `NamedIndex` finds. */
  lemma NamedIndexAt(cases: seq<Case>, method_: string, i: nat)
    requires i < |cases| && cases[i].name == method_
    requires forall j :: 0 <= j < i ==> cases[j].name != method_
    ensures NamedIndex(cases, method_) == Some(i)
  {
    assert Names(cases)[i] == method_;
  }

  /** In a well-formed enum, calling a case's name gives that case's value. */
  lemma CallStaticOfName(cases: seq<Case>, i: nat)
    requires WellFormed(cases) && i < |cases|
    ensures NamedIndex(cases, cases[i].name) == Some(i)
  {
    var k := NamedIndex(cases, cases[i].name);
    assert cases[i].name in Names(cases) by {
      assert Names(cases)[i] == cases[i].name;
    }
    assert forall j :: 0 <= j < |cases| && j != i ==> cases[j].name != cases[i].name by {
      forall j | 0 <= j < |cases| && j != i ensures cases[j].name != cases[i].name {
        if j < i {
          assert cases[j].name != cases[i].name;
        } else {
          assert cases[i].name != cases[j].name;
        }
      }
    }
  }

  const DefaultSeparator := ","

  /** `valuesToString($separator)`: the values joined with the separator. */
  function ValuesToString(cases: seq<Case>, separator: string): string {
    Join(Values(cases), separator)
  }

  // --------------------------------------------------------- display names

  /** The characters `ucwords` treats as word delimiters by default. */
  predicate IsDelimiter(c: char) {
    c == ' ' || c == '\t' || c == '\r' || c == '\n' || c == '\U{000C}' || c == '\U{000B}'
  }

  predicate IsUpper(c: char) {
    'A' <= c <= 'Z'
  }

  predicate IsLower(c: char) {
    'a' <= c <= 'z'
  }

  /** PHP 8's `strtolower` on one character: ASCII letters only. */
  function Lower(c: char): (d: char)
    ensures !IsUpper(d)
    ensures !IsUpper(c) ==> d == c
    ensures IsDelimiter(d) <==> IsDelimiter(c)
    ensures d == '_' <==> c == '_'
  {
    if IsUpper(c) then (c as int + 32) as char else c
  }

  function Upper(c: char): (d: char)
    ensures !IsLower(d)
    ensures !IsUpper(c) ==> Lower(d) == c
    ensures IsDelimiter(d) <==> IsDelimiter(c)
    ensures d == '_' <==> c == '_'
  {
    if IsLower(c) then (c as int - 32) as char else c
  }

  /** Whether position `i` of `s` starts a word, as `ucwords` sees it. */
  predicate StartsWord(s: string, i: nat)
    requires i < |s|
  {
    i == 0 || IsDelimiter(s[i - 1])
  }

  /** `ucwords(strtolower(str_replace('_', ' ', $s)))`, character by character. */
  function Displayed(s: string): (r: string)
    ensures |r| == |s|
    ensures forall i :: 0 <= i < |s| ==> Lower(r[i]) == (if s[i] == '_' then ' ' else Lower(s[i]))
    decreases |s|
  {
    if s == [] then []
    else
      var n := |s| - 1;
      var c := if s[n] == '_' then ' ' else Lower(s[n]);
      Displayed(s[..n]) + [if n == 0 || IsDelimiter(s[n - 1]) || s[n - 1] == '_' then Upper(c) else c]
  }

  /** `displayName()` of a case. */
  function DisplayName(c: Case): string {
    Displayed(c.value)
  }

  /**
   * A display name has no underscore, and is capitalised word by word:
   * upper case where a word starts, lower case everywhere else.
   */
  lemma {:induction false} DisplayedShape(s: string)
    ensures forall i :: 0 <= i < |s| ==> Displayed(s)[i] != '_'
    ensures forall i :: 0 <= i < |s| ==> (StartsWord(Displayed(s), i) ==> !IsLower(Displayed(s)[i]))
    ensures forall i :: 0 <= i < |s| ==> (!StartsWord(Displayed(s), i) ==> !IsUpper(Displayed(s)[i]))
    decreases |s|
  {
    if s != [] {
      var n := |s| - 1;
      DisplayedShape(s[..n]);
      var r := Displayed(s);
      assert r[..n] == Displayed(s[..n]);
      assert forall i :: 0 <= i < n ==> r[i] == Displayed(s[..n])[i];
      if n > 0 {
        assert s[..n][n - 1] == s[n - 1];
        DisplayedLast(s[..n]);
      }
    }
  }

  /** The last character of a display name is a delimiter exactly when the input's is a delimiter or `'_'`. */
  lemma DisplayedLast(s: string)
    requires s != []
    ensures IsDelimiter(Displayed(s)[|s| - 1]) <==> IsDelimiter(s[|s| - 1]) || s[|s| - 1] == '_'
  {
  }
}
