/** The module-level state of script.js (`allCryptos`, `filteredCryptos`) and
    the two operations that reassign it, `fetchCryptoData` and
    `filterCryptos`, together with what they leave on screen: the card grid
    and the error banner. The request itself is a parameter: the caller
    passes what the endpoint answered. */
module App {
  import opened Text
  import opened Assets
  import opened Search
  import opened Render

  class Dashboard {
    var allCryptos: seq<Asset>
    var filteredCryptos: seq<Asset>
    /** What `cryptoGrid` shows. */
    var grid: Grid
    /** Whether the error banner carries its `show` class. */
    var errorShown: bool
    /** The normalised term `filteredCryptos` was last derived with: the
        empty term after a successful fetch, which resets the view whatever
        the search box holds. */
    ghost var appliedTerm: string

    /** `filteredCryptos` is the full list filtered by the applied term, and
        a grid that has been drawn shows exactly `filteredCryptos`. */
    ghost predicate Valid()
      reads this
    {
      filteredCryptos == FilterBy(allCryptos, appliedTerm) &&
      (grid == Blank || grid == DisplayCryptos(filteredCryptos))
    }

    /** What the invariant buys: the filtered list is always an
        order-preserving subsequence of the full list. */
    lemma FilteredIsSubsequence()
      requires Valid()
      ensures IsSubsequence(filteredCryptos, allCryptos)
    {
      FilterBySubsequence(allCryptos, appliedTerm);
    }

    /** Page load: both lists empty (script.js lines 1-2), nothing drawn yet. */
    constructor ()
      ensures Valid()
      ensures allCryptos == [] && filteredCryptos == [] && grid == Blank && !errorShown
    {
      allCryptos := [];
      filteredCryptos := [];
      grid := Blank;
      errorShown := false;
      appliedTerm := [];
    }

    /** `fetchCryptoData`: on success both lists become the new data (the
        search term is not re-applied) and the grid shows all of it; on
        failure the lists and the grid keep their previous values and the
        error banner is shown. */
    method Fetch(result: FetchResult)
      requires Valid()
      modifies this
      ensures Valid()
      ensures IsSubsequence(filteredCryptos, allCryptos)
      ensures result.Success? ==>
        allCryptos == result.data && filteredCryptos == result.data &&
        grid == DisplayCryptos(result.data) && !errorShown
      ensures result.Failure? ==>
        allCryptos == old(allCryptos) && filteredCryptos == old(filteredCryptos) &&
        grid == old(grid) && errorShown
    {
      errorShown := false;
      if result.Success? {
        FilterByEmptyTerm(result.data);
        allCryptos := result.data;
        filteredCryptos := result.data;
        appliedTerm := [];
        grid := DisplayCryptos(filteredCryptos);
      } else {
        errorShown := true;
      }
      FilteredIsSubsequence();
    }

    /** `filterCryptos`: recompute `filteredCryptos` from `allCryptos` and the
        term, leave `allCryptos` alone, and redraw the grid. */
    method Filter(searchTerm: string)
      requires Valid()
      modifies this`filteredCryptos, this`grid, this`appliedTerm
      ensures Valid()
      ensures allCryptos == old(allCryptos) && errorShown == old(errorShown)
      ensures filteredCryptos == FilterCryptos(allCryptos, searchTerm)
      ensures IsSubsequence(filteredCryptos, allCryptos)
      ensures grid == DisplayCryptos(filteredCryptos)
    {
      var term := Trim(ToLower(searchTerm));
      if term == [] {
        filteredCryptos := allCryptos;
      } else {
        filteredCryptos := FilterBy(allCryptos, term);
      }
      appliedTerm := term;
      grid := DisplayCryptos(filteredCryptos);
      FilterCryptosIsFilterBy(allCryptos, searchTerm);
      FilterCryptosSubsequence(allCryptos, searchTerm);
    }
  }
}
