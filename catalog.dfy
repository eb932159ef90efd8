/**
 * The register catalog: which Modbus registers of the M-TEC inverter
 * make up each read category.
 */
module Catalog {
  import opened Wrappers

  /** The four read categories the bridge knows. */
  datatype Category = Config | Current | Day | Total

  /** The name a category goes by in the bridge (and in its topics). */
  function Name(c: Category): string {
    match c
    case Config => "config"
    case Current => "current"
    case Day => "day"
    case Total => "total"
  }

  /** The category a name stands for, if any. */
  function Parse(category: string): (c: Option<Category>)
    ensures c.Some? ==> Name(c.value) == category
    ensures c.None? <==> category !in {"config", "current", "day", "total"}
  {
    if category == "config" then Some(Config)
    else if category == "current" then Some(Current)
    else if category == "day" then Some(Day)
    else if category == "total" then Some(Total)
    else None
  }

  lemma ParseName(c: Category)
    ensures Parse(Name(c)) == Some(c)
  {
  }

  predicate Distinct(s: seq<string>) {
    forall i, j :: 0 <= i < j < |s| ==> s[i] != s[j]
  }

  /** The register ids requested for a category, in request order. */
  function Registers(c: Category): seq<string> {
    match c
    case Config => ["10000", "10011"]
    case Current => ["10100", "10105", "11028", "11000", "30258", "11016", "30230", "33000"]
    case Day => ["31000", "31001", "31003", "31004", "31005"]
    case Total => ["31102", "31104", "31108", "31110", "31112"]
  }

  /** `get_register_list`: the registers for a category name; None for
      a name that is not one of the four categories. */
  function RegisterList(category: string): (registers: Option<seq<string>>)
    ensures registers.Some? <==> category in {"config", "current", "day", "total"}
    ensures registers.Some? ==> |registers.value| > 0 && Distinct(registers.value)
    ensures category == "config" ==> |registers.value| == 2
    ensures category == "current" ==> |registers.value| == 8
    ensures category == "day" || category == "total" ==> |registers.value| == 5
  {
    match Parse(category)
    case None => None
    case Some(c) => Some(Registers(c))
  }

  /** `get_register_list` called with a category's name returns exactly
      the catalog's registers for it. */
  lemma RegisterListOf(c: Category)
    ensures RegisterList(Name(c)) == Some(Registers(c))
  {
    ParseName(c);
  }
}
