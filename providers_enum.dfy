/** `ExchangeRateProvidersEnum`: the exchange-rate provider kinds, a string-backed enum using `EnumHelpers`. */
module ProvidersEnum {
  import opened Wrappers
  import opened EnumHelpers

  const ClassName := "BC\\ExchangeRates\\Enums\\ExchangeRateProvidersEnum"

  const Configurable := Case("CONFIGURABLE", "CONFIGURABLE")
  const Pdo := Case("PDO", "PDO")

  /** `cases()`, in declaration order. */
  function Cases(): (cs: seq<Case>)
    ensures WellFormed(cs)
    ensures Names(cs) == Values(cs)
  {
    [Configurable, Pdo]
  }

  lemma ValuesListed()
    ensures Values(Cases()) == ["CONFIGURABLE", "PDO"]
    ensures ValuesToString(Cases(), DefaultSeparator) == "CONFIGURABLE,PDO"
    ensures ValueNames(Cases()) == map["CONFIGURABLE" := "CONFIGURABLE", "PDO" := "PDO"]
  {
    assert Values(Cases())[1..] == ["PDO"];
  }

  lemma DisplayedPrefix4()
    ensures Displayed("CONF") == "Conf"
  {
    assert Displayed("C") == "C";
    assert "CO"[..1] == "C";
    assert Displayed("CO") == "Co";
    assert "CON"[..2] == "CO";
    assert Displayed("CON") == "Con";
    assert "CONF"[..3] == "CON";
  }

  lemma DisplayedPrefix8()
    ensures Displayed("CONFIGUR") == "Configur"
  {
    DisplayedPrefix4();
    assert "CONFI"[..4] == "CONF";
    assert Displayed("CONFI") == "Confi";
    assert "CONFIG"[..5] == "CONFI";
    assert Displayed("CONFIG") == "Config";
    assert "CONFIGU"[..6] == "CONFIG";
    assert Displayed("CONFIGU") == "Configu";
    assert "CONFIGUR"[..7] == "CONFIGU";
  }

  lemma DisplayedPrefix12()
    ensures Displayed("CONFIGURABLE") == "Configurable"
  {
    DisplayedPrefix8();
    assert "CONFIGURA"[..8] == "CONFIGUR";
    assert Displayed("CONFIGURA") == "Configura";
    assert "CONFIGURAB"[..9] == "CONFIGURA";
    assert Displayed("CONFIGURAB") == "Configurab";
    assert "CONFIGURABL"[..10] == "CONFIGURAB";
    assert Displayed("CONFIGURABL") == "Configurabl";
    assert "CONFIGURABLE"[..11] == "CONFIGURABL";
  }

  lemma DisplayNames()
    ensures DisplayName(Configurable) == "Configurable"
    ensures DisplayName(Pdo) == "Pdo"
  {
    DisplayedPrefix12();
    assert Displayed("P") == "P";
    assert "PD"[..1] == "P";
    assert Displayed("PD") == "Pd";
    assert "PDO"[..2] == "PD";
  }

  /** Each case is found by its value or name, and calling its name statically gives its value. */
  lemma CasesAreFound()
    ensures FirstMatch(Cases(), "CONFIGURABLE") == Some(0) && FirstMatch(Cases(), "PDO") == Some(1)
    ensures FirstMatch(Cases(), "pdo") == None
    ensures NamedIndex(Cases(), "PDO") == Some(1)
    ensures NamedIndex(Cases(), "Pdo") == None
  {
    SearchFindsItsCase(Cases(), 0);
    SearchFindsItsCase(Cases(), 1);
    CallStaticOfName(Cases(), 1);
    assert Names(Cases()) == ["CONFIGURABLE", "PDO"];
  }
}
