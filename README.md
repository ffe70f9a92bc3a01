# Country directory view, modelled in Dafny

A model of `Main`, the single React view of a country directory. The view
fetches the full list of countries once, filters it by a case-insensitive
search on each record's common name, shows one card per matching record and
opens a detail overlay for the card whose "Read more" button is pressed. The
overlay closes from its close button or from a press on the dimmed backdrop
around it. Optional fields of a record fall back to "N/A" in the overlay.

The model has six modules:

- `Wrappers` holds the `Option` type. It stands for JavaScript's `null` / `undefined`.
- `Text` covers the string operations the view uses:
  - `toLowerCase` on ASCII letters (`Lower`);
  - `String.prototype.includes` (`Contains`), proved equal to "occurs at some position";
  - `Array.prototype.join` (`Join`).
- `Countries` holds the country record. JSON objects (currencies, languages)
  are kept as ordered entry lists, so that `Object.values` has the order the
  view prints.
- `Search` holds the filter (`filteredCountries`) and its properties.
- `Details` holds the overlay lines with their "N/A" fallbacks.
- `MainView` holds the class `Main`. Its fields are the three pieces of
  component state: `countries` (`arr`), `selected` (`dataObj`) and `search`.
  Its methods are the handlers `getData`, `onChange`, `dataInfo`,
  `closeModal` and the window `mousedown` handler.

The model follows the code in the places where its behaviour is easy to misread:

- Not every optional field degrades to a placeholder. A present but empty
  `currencies` or `languages` object shows an empty line, not "N/A".
  `EmptyListsAndObjectsDiffer` states this.
- The timezones line reads "N/A" for a missing list and also for `[]` and
  `[""]`. `[]` and `[""]` join to the empty string and a missing list gives
  `undefined`; both are falsy.
- `dataInfo` with an index outside the filtered list stores `undefined`.
  `Select` models this as clearing the selection: the overlay stays hidden.
- A failed fetch leaves the list as it was, not necessarily empty. It is
  empty only on the first load.

Two example methods in `MainView` walk through the view's scenarios:
`FetchFailureKeepsPlaceholder` (a failed first load keeps the placeholder
whatever is typed) and `OpenAndClose` (a card opens the overlay on its
record; a press on the panel keeps it, a press on the backdrop or the close
button closes it).

## Model

| member | source | states |
|---|---|---|
| `Text.LowerChar` | src/components/main/index.jsx:26 | the result is never an upper-case ASCII letter; upper-case letters move by 32 code points, every other character is kept |
| `Text.Lower` | src/components/main/index.jsx:26 | lower-casing keeps the length and lower-cases each character in place |
| `Text.Contains` | src/components/main/index.jsx:26 | `includes` holds when the string starts with the pattern, and only when the pattern is no longer than the string |
| `Text.ContainsIff` | src/components/main/index.jsx:26 | `includes` is true exactly when the pattern occurs at some position of the string |
| `Text.ContainsEmpty` | src/components/main/index.jsx:26 | every string includes the empty string |
| `Text.ContainsPrefixOfPattern` | src/components/main/index.jsx:26 | a string that includes `t + u` also includes `t` |
| `Text.LowerAppend` | src/components/main/index.jsx:26 | lower-casing a concatenation is concatenating the lower-cased parts |
| `Text.Join` | src/components/main/index.jsx:107 | `join` of no parts is "", of one part is that part, and of more parts starts with the first part and the separator and is at least as long as first part, separator and last part together |
| `Text.JoinEmptyIff` | src/components/main/index.jsx:107 | with the separator ", " the joined text is empty exactly for `[]` and `[""]` |
| `Text.JoinContainsParts` | src/components/main/index.jsx:107-117 | every joined part can be found in the joined text |
| `Countries.Values` | src/components/main/index.jsx:111 | `Object.values` lists one value per entry, in entry order |
| `Countries.CurrencyNames` | src/components/main/index.jsx:111 | the mapped names are the currencies' names, position by position |
| `Search.Matches` | src/components/main/index.jsx:26 | a record matches exactly when the lower-cased query occurs somewhere in its lower-cased common name; the empty query matches every record |
| `Search.Filter` | src/components/main/index.jsx:25-27 | the filtered list is no longer than the list, and every record in it matches the query |
| `Search.FilterIsSubsequence` | src/components/main/index.jsx:25-27 | the filtered list is a subsequence of the list: relative order is preserved |
| `Search.FilterMultiplicity` | src/components/main/index.jsx:25-27 | each matching record is kept exactly as often as it occurs; non-matching records are dropped |
| `Search.FilterMembership` | src/components/main/index.jsx:25-27 | for every record: it is in the result if and only if it is in the list and matches |
| `Search.FilterUnique` | src/components/main/index.jsx:25-27 | any order-preserving selection that keeps exactly the matching records is the filter's result |
| `Search.FilterEmptyQuery` | src/components/main/index.jsx:25-27 | an empty query returns the whole list unchanged |
| `Search.FilterIdempotent` | src/components/main/index.jsx:25-27 | filtering the filtered list again with the same query changes nothing |
| `Search.FilterCaseInsensitive` | src/components/main/index.jsx:25-27 | two queries with the same lower-case form select the same records |
| `Search.FilterNarrows` | src/components/main/index.jsx:25-27 | extending the query gives the old result filtered again by the longer query |
| `Search.UzbekistanSearch` | src/components/main/index.jsx:25-27 | for any three records named Uzbekistan, Uganda and Brazil, the query "uzb" selects only the Uzbekistan record |
| `Details.OrElse` | src/components/main/index.jsx:98-107 | JavaScript's logical or with a fallback: a present non-empty string is kept; `undefined` or "" gives the fallback; a non-empty fallback makes the result non-empty |
| `Details.First` | src/components/main/index.jsx:98 | `list?.[0]` is defined exactly when the list is present and non-empty, and is then its first entry |
| `Details.JoinOptional` | src/components/main/index.jsx:107 | `list?.join(', ')` is `undefined` exactly when the list is missing; otherwise it is the ", " join, which contains every entry |
| `Details.CapitalText` | src/components/main/index.jsx:98 | the capital line is never empty; it shows the first capital when that is a non-empty string, otherwise "N/A" |
| `Details.SubregionText` | src/components/main/index.jsx:104 | the subregion line is never empty; it shows "N/A" when the subregion is missing or empty |
| `Details.TimezonesText` | src/components/main/index.jsx:107 | the timezones line is never empty; it contains every timezone; it is "N/A" when the list is missing, `[]` or `[""]` |
| `Details.CurrenciesText` | src/components/main/index.jsx:110-112 | the currencies line is "N/A" when the object is missing; for a present object it is exactly the currency names in entry order joined by ", ", so it contains every name and an empty object gives an empty line |
| `Details.LanguagesText` | src/components/main/index.jsx:115-117 | the languages line is "N/A" when the object is missing; for a present object it is exactly the language names in entry order joined by ", ", so it contains every name and an empty object gives an empty line |
| `Details.DetailOf` | src/components/main/index.jsx:83-117 | the overlay shows the record's flag, name and region, and its capital, subregion, timezones, currencies and languages lines are exactly those of `CapitalText`, `SubregionText`, `TimezonesText`, `CurrenciesText` and `LanguagesText` for the record; the capital, subregion and timezones lines are never blank |
| `Details.EmptyListsAndObjectsDiffer` | src/components/main/index.jsx:98-117 | empty capital and timezone lists show "N/A", while empty currencies and languages objects show "" |
| `MainView.HasClass` | src/components/main/index.jsx:43 | `classList.contains` scans the class list and is true exactly when the name is one of the element's classes |
| `MainView.ClosesOverlay` | src/components/main/index.jsx:43 | the handler's test is true exactly when `modal-bg` is one of the target's classes |
| `MainView.BackdropClosesPanelKeeps` | src/components/main/index.jsx:43-44 | a press on the backdrop (class `modal-bg`, line 60) closes the overlay; a press on the panel (line 61) does not |
| `MainView.Main.constructor` | src/components/main/index.jsx:5-7 | on mount the list is empty, nothing is selected and the search text is empty |
| `MainView.Main.Filtered` | src/components/main/index.jsx:25-27 | the list the grid renders and `dataInfo` indexes (lines 36, 138) keeps the list's order and keeps each record of the list that matches the search text exactly as often as it occurs, and no other record; with `Search.FilterUnique` this determines the list completely |
| `MainView.Main.GridView` | src/components/main/index.jsx:138-172 | the grid shows the placeholder exactly when the filtered list is empty, otherwise one card per filtered record |
| `MainView.Main.Overlay` | src/components/main/index.jsx:59 | the overlay is shown exactly when a record is selected, and then shows that record's details |
| `MainView.Main.Load` | src/components/main/index.jsx:10-18 | a successful fetch replaces the list; a failed one leaves it unchanged; selection and search text are untouched |
| `MainView.Main.SetSearch` | src/components/main/index.jsx:130 | the typed text becomes the query; the list and the selection are untouched |
| `MainView.Main.Select` | src/components/main/index.jsx:35-38 | an index inside the filtered list selects that record, which is in the list and matches the search; any other index clears the selection; list and search text are untouched |
| `MainView.Main.Close` | src/components/main/index.jsx:30-32 | the selection is cleared and the overlay hidden; nothing else changes |
| `MainView.Main.MouseDown` | src/components/main/index.jsx:42-46 | a press whose target has the class `modal-bg` clears the selection; any other press leaves all state unchanged |

## Left out

- The HTTP request and the JSON parsing (index.jsx:12-13) are network I/O. `Main.Load` takes their outcome instead: the parsed list, or `None` when either step throws. Logging the error (line 16) is left out.
- The response is trusted to be an array of records with a string `name.common`. A body of another shape, which would make the filter throw during render, is not modelled.
- Calling `getData` once on mount (lines 20-22) is a React effect. The model does not enforce that `Load` runs only once.
- Registering and removing the window `mousedown` listener (lines 48-53) is DOM plumbing. Only the handler's decision is modelled, with the target given by its class list.
- `Text.Lower`: lower-cases ASCII letters only. JavaScript's `toLowerCase` also folds other Unicode letters.
- `Details.DetailOf`: population and area are left out of the overlay. Their `toLocaleString` formatting depends on the locale. For the same reason, the card grid's population line (line 159) is left out of `Main.GridView`.
- A currency without a `name` (which `join` prints as an empty string) is not modelled. Duplicate keys in a JSON object are not modelled either. Entry keys are kept but never read.
- The selection is not tied to the current list. After a later `Load` or `SetSearch`, the overlay keeps showing the record chosen earlier. The model keeps this behaviour and states no invariant about it.
- JSX markup, styling, images, and React's render and hook scheduling are left out.
