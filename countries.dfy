/**
 * One entry of the country list the view receives from the countries
 * endpoint, reduced to the fields the view reads.
 */
module Countries {
  import opened Wrappers

  datatype Currency = Currency(name: string, symbol: string)

  /**
   * A country record. `name` is `name.common` and `flag` is `flags.png`.
   * The JSON objects `currencies` (code to currency) and `languages`
   * (code to display name) are kept as their entries in the order the
   * JSON object lists them, which is the order `Object.values` returns
   * them in. A field the record lacks is `None`.
   */
  datatype Country = Country(
    name: string,
    flag: string,
    region: string,
    subregion: Option<string>,
    population: nat,
    area: real,
    capital: Option<seq<string>>,
    timezones: Option<seq<string>>,
    currencies: Option<seq<(string, Currency)>>,
    languages: Option<seq<(string, string)>>)

  /** `Object.values(o)` for an object given by its entries. */
  function Values<K, V>(entries: seq<(K, V)>): (vs: seq<V>)
    ensures |vs| == |entries|
    ensures forall i :: 0 <= i < |entries| ==> vs[i] == entries[i].1
  {
    if entries == [] then [] else [entries[0].1] + Values(entries[1..])
  }

  /** The name of each currency, in order. */
  function CurrencyNames(currencies: seq<Currency>): (names: seq<string>)
    ensures |names| == |currencies|
    ensures forall i :: 0 <= i < |currencies| ==> names[i] == currencies[i].name
  {
    if currencies == [] then [] else [currencies[0].name] + CurrencyNames(currencies[1..])
  }
}
