/**
 * The lines of the detail overlay that fall back to "N/A". Text the view
 * renders from `undefined` is modelled by `None`; JavaScript's `a || b`
 * yields `b` when `a` is `undefined` or the empty string.
 */
module Details {
  import opened Wrappers
  import opened Text
  import opened Countries

  const NotAvailable: string := "N/A"
  const ListSeparator: string := ", "

  /** `value || fallback` for a string that may be `undefined`. */
  function OrElse(value: Option<string>, fallback: string): (r: string)
    ensures value.Some? && value.value != "" ==> r == value.value
    ensures value.None? || value.value == "" ==> r == fallback
    ensures fallback != "" ==> r != ""
  {
    if value.Some? && value.value != "" then value.value else fallback
  }

  /** `list?.[0]`: `undefined` when the list is missing or empty. */
  function First(list: Option<seq<string>>): (r: Option<string>)
    ensures r.Some? <==> list.Some? && list.value != []
    ensures r.Some? ==> r.value == list.value[0]
  {
    if list.Some? && list.value != [] then Some(list.value[0]) else None
  }

  /** `list?.join(', ')`: `undefined` when the list is missing. */
  function JoinOptional(list: Option<seq<string>>): (r: Option<string>)
    ensures r.None? <==> list.None?
    ensures list.Some? ==> r.value == Join(list.value, ListSeparator)
    ensures list.Some? ==> forall k :: 0 <= k < |list.value| ==> Contains(r.value, list.value[k])
  {
    match list
    case None => None
    case Some(parts) =>
      JoinContainsAll(parts, ListSeparator);
      Some(Join(parts, ListSeparator))
  }

  predicate HasCapital(c: Country) {
    c.capital.Some? && c.capital.value != [] && c.capital.value[0] != ""
  }

  /** The capital line: the first capital, or "N/A" when there is none to show. */
  function CapitalText(c: Country): (r: string)
    ensures r != ""
    ensures HasCapital(c) ==> r == c.capital.value[0]
    ensures !HasCapital(c) ==> r == NotAvailable
  {
    OrElse(First(c.capital), NotAvailable)
  }

  /** The subregion line: the subregion, or "N/A" when it is missing or empty. */
  function SubregionText(c: Country): (r: string)
    ensures r != ""
    ensures c.subregion.Some? && c.subregion.value != "" ==> r == c.subregion.value
    ensures c.subregion.None? || c.subregion.value == "" ==> r == NotAvailable
  {
    OrElse(c.subregion, NotAvailable)
  }

  /**
   * The timezones line: every timezone is shown, separated by ", "; the
   * line reads "N/A" when the list is missing or joins to nothing, which
   * happens for `[]` and for `[""]`.
   */
  function TimezonesText(c: Country): (r: string)
    ensures r != ""
    ensures c.timezones.None? || c.timezones.value == [] || c.timezones.value == [""] ==> r == NotAvailable
    ensures c.timezones.Some? && c.timezones.value != [] && c.timezones.value != [""] ==>
              r == Join(c.timezones.value, ListSeparator)
    ensures c.timezones.Some? ==> forall k :: 0 <= k < |c.timezones.value| ==> Contains(r, c.timezones.value[k])
  {
    match c.timezones
    case None => NotAvailable
    case Some(zones) =>
      JoinEmptyIff(zones, ListSeparator);
      JoinContainsAll(zones, ListSeparator);
      ContainsEmpty(NotAvailable);
      OrElse(JoinOptional(c.timezones), NotAvailable)
  }

  /**
   * The currencies line: "N/A" only when the record has no currencies
   * object; otherwise every currency name, separated by ", ", so that an
   * empty object shows an empty line.
   */
  function CurrenciesText(c: Country): (r: string)
    ensures c.currencies.None? ==> r == NotAvailable
    ensures c.currencies.Some? ==> r == Join(CurrencyNames(Values(c.currencies.value)), ListSeparator)
    ensures c.currencies == Some([]) ==> r == ""
    ensures c.currencies.Some? ==> forall k :: 0 <= k < |c.currencies.value| ==> Contains(r, c.currencies.value[k].1.name)
  {
    match c.currencies
    case None => NotAvailable
    case Some(entries) =>
      var names := CurrencyNames(Values(entries));
      JoinContainsAll(names, ListSeparator);
      Join(names, ListSeparator)
  }

  /**
   * The languages line: "N/A" only when the record has no languages
   * object; otherwise every language name, separated by ", ".
   */
  function LanguagesText(c: Country): (r: string)
    ensures c.languages.None? ==> r == NotAvailable
    ensures c.languages.Some? ==> r == Join(Values(c.languages.value), ListSeparator)
    ensures c.languages == Some([]) ==> r == ""
    ensures c.languages.Some? ==> forall k :: 0 <= k < |c.languages.value| ==> Contains(r, c.languages.value[k].1)
  {
    match c.languages
    case None => NotAvailable
    case Some(entries) =>
      var names := Values(entries);
      JoinContainsAll(names, ListSeparator);
      Join(names, ListSeparator)
  }

  /** What the overlay shows for a record; population and area are left out. */
  datatype Detail = Detail(
    flag: string,
    name: string,
    region: string,
    capital: string,
    subregion: string,
    timezones: string,
    currencies: string,
    languages: string)

  function DetailOf(c: Country): (d: Detail)
    ensures d.flag == c.flag && d.name == c.name && d.region == c.region
    ensures d.capital == CapitalText(c) && d.subregion == SubregionText(c) && d.timezones == TimezonesText(c)
    ensures d.currencies == CurrenciesText(c) && d.languages == LanguagesText(c)
    ensures d.capital != "" && d.subregion != "" && d.timezones != ""
  {
    Detail(c.flag, c.name, c.region, CapitalText(c), SubregionText(c), TimezonesText(c),
           CurrenciesText(c), LanguagesText(c))
  }

  /**
   * Empty lists and empty objects are treated differently: an empty capital
   * or timezone list shows "N/A", an empty currencies or languages object
   * shows an empty line.
   */
  lemma EmptyListsAndObjectsDiffer(c: Country)
    requires c.capital == Some([]) && c.timezones == Some([])
    requires c.currencies == Some([]) && c.languages == Some([])
    ensures DetailOf(c).capital == NotAvailable && DetailOf(c).timezones == NotAvailable
    ensures DetailOf(c).currencies == "" && DetailOf(c).languages == ""
  {
  }
}
