/**
 * The `Main` view: the fetched country list, the search text and the record
 * shown in the detail overlay, with the handlers that update them.
 */
module MainView {
  import opened Wrappers
  import opened Text
  import opened Countries
  import opened Search
  import opened Details

  /** The class that marks the dimmed backdrop behind the overlay panel. */
  const BackdropClass: string := "modal-bg"

  /** The class list of the backdrop element. */
  const BackdropClasses: seq<string> :=
    ["fixed", "z-50", "w-full", "h-screen", "bg-[rgba(0,0,0,0.9)]", "top-0", "left-0",
     "flex", "justify-center", "items-center", "modal-bg"]

  /** The class list of the overlay panel inside the backdrop. */
  const PanelClasses: seq<string> :=
    ["relative", "w-full", "max-w-md", "mx-auto", "bg-gray-800", "border", "border-gray-700",
     "rounded-lg", "shadow-lg"]

  /** `classList.contains(name)`: scans the element's class list for `name`. */
  predicate HasClass(classes: seq<string>, name: string): (b: bool)
    ensures b <==> name in classes
  {
    classes != [] && (classes[0] == name || HasClass(classes[1..], name))
  }

  /** The decision of the window `mousedown` handler: close when the target is the backdrop. */
  predicate ClosesOverlay(targetClasses: seq<string>): (b: bool)
    ensures b <==> BackdropClass in targetClasses
  {
    HasClass(targetClasses, BackdropClass)
  }

  /** A press on the backdrop closes the overlay; a press on the panel does not. */
  lemma BackdropClosesPanelKeeps()
    ensures ClosesOverlay(BackdropClasses)
    ensures !ClosesOverlay(PanelClasses)
  {
    assert BackdropClasses[10] == BackdropClass;
  }

  /** The card grid: one card per filtered record, or the loading placeholder. */
  datatype Grid = Placeholder | Cards(items: seq<Country>)

  class Main {
    var countries: seq<Country>
    var selected: Option<Country>
    var search: string

    /** The state on mount: no countries, no selection, no search text. */
    constructor ()
      ensures countries == [] && selected == None && search == ""
    {
      countries := [];
      selected := None;
      search := "";
    }

    /** The records the grid shows for the current search text. */
    function Filtered(): (r: seq<Country>)
      reads this
      ensures IsSubsequence(r, countries)
      ensures forall c :: c in r <==> c in countries && Matches(c, search)
      ensures forall c :: multiset(r)[c] == if Matches(c, search) then multiset(countries)[c] else 0
    {
      FilterIsSubsequence(countries, search);
      FilterMembership(countries, search);
      FilterMultiplicityAll(countries, search);
      Filter(countries, search)
    }

    function GridView(): (g: Grid)
      reads this
      ensures g.Placeholder? <==> Filtered() == []
      ensures g.Cards? ==> g.items == Filtered()
    {
      if |Filtered()| > 0 then Cards(Filtered()) else Placeholder
    }

    /** The overlay is rendered exactly when a record is selected. */
    function Overlay(): (d: Option<Detail>)
      reads this
      ensures d.Some? <==> selected.Some?
      ensures selected.Some? ==> d.value == DetailOf(selected.value)
    {
      match selected
      case None => None
      case Some(c) => Some(DetailOf(c))
    }

    /**
     * `getData`: the outcome of fetching and parsing the list is `Some(list)`
     * on success and `None` when either step throws; a failure is swallowed
     * and the list stays as it was.
     */
    method Load(fetched: Option<seq<Country>>)
      modifies this`countries
      ensures fetched.Some? ==> countries == fetched.value
      ensures fetched.None? ==> countries == old(countries)
      ensures selected == old(selected) && search == old(search)
    {
      match fetched {
        case Some(list) => countries := list;
        case None =>
      }
    }

    /** The search input's `onChange`: the new text becomes the query. */
    method SetSearch(query: string)
      modifies this`search
      ensures search == query
      ensures countries == old(countries) && selected == old(selected)
      ensures Filtered() == Filter(countries, query)
    {
      search := query;
    }

    /**
     * `dataInfo(index)`: selects the record at `index` of the filtered list.
     * An index outside the list reads `undefined`, which hides the overlay.
     */
    method Select(index: int)
      modifies this`selected
      ensures 0 <= index < |old(Filtered())| ==> selected == Some(old(Filtered())[index])
      ensures !(0 <= index < |old(Filtered())|) ==> selected == None
      ensures selected.Some? ==> selected.value in countries && Matches(selected.value, search)
      ensures countries == old(countries) && search == old(search)
    {
      var filtered := Filtered();
      if 0 <= index < |filtered| {
        selected := Some(filtered[index]);
        FilterMembership(countries, search);
      } else {
        selected := None;
      }
    }

    /** `closeModal`: clears the selection. */
    method Close()
      modifies this`selected
      ensures selected == None && Overlay() == None
      ensures countries == old(countries) && search == old(search)
    {
      selected := None;
    }

    /** The window `mousedown` handler, given the class list of the pressed element. */
    method MouseDown(targetClasses: seq<string>)
      modifies this`selected
      ensures ClosesOverlay(targetClasses) ==> selected == None
      ensures !ClosesOverlay(targetClasses) ==> selected == old(selected)
      ensures countries == old(countries) && search == old(search)
    {
      if ClosesOverlay(targetClasses) {
        Close();
      }
    }
  }

  /**
   * Example: a first load that fails leaves the list empty, so the grid
   * shows the loading placeholder whatever is typed afterwards.
   */
  method FetchFailureKeepsPlaceholder(query: string)
  {
    var view := new Main();
    view.Load(None);
    view.SetSearch(query);
    assert view.GridView() == Placeholder;
  }

  /**
   * Example: the "Read more" button of card `index` opens the overlay on
   * that card's record; a press on the panel keeps it open, a press on the
   * backdrop closes it, and the close button closes it again after a
   * reopen, leaving the list and the search text as they were.
   */
  method OpenAndClose(list: seq<Country>, query: string, index: int)
    requires 0 <= index < |Filter(list, query)|
  {
    var view := new Main();
    view.Load(Some(list));
    view.SetSearch(query);
    var card := view.GridView().items[index];
    view.Select(index);
    assert view.Overlay() == Some(DetailOf(card));
    view.MouseDown(PanelClasses);
    BackdropClosesPanelKeeps();
    assert view.Overlay() == Some(DetailOf(card));
    view.MouseDown(BackdropClasses);
    assert view.Overlay() == None;
    view.Select(index);
    view.Close();
    assert view.Overlay() == None && view.countries == list && view.search == query;
  }
}
