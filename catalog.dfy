/**
 * The viewer's module state: the full listing (`pokemonData`), the filtered
 * view (`filteredData`) and the page being shown, with the operations that
 * reassign them: loading the listing, rendering a page, the three kinds of
 * pagination click and the search keystroke.
 *
 * `displayPagination`'s parameter shadows the outer `currentPage`, which
 * therefore stays 1 for ever; the page the handlers step from is the one
 * last passed to `displayPokemon`, kept here in `page`.
 */
module Catalog {
  import opened Wrappers
  import opened Listing
  import SearchFilter
  import Pager

  /** The outer `currentPage`, never reassigned: the page shown after loading. */
  const INITIAL_PAGE: int := 1

  class Viewer {
    /** `pokemonData`: the listing as fetched. */
    var pokemonData: seq<Summary>
    /** `filteredData`: the view the pager works on. */
    var filteredData: seq<Summary>
    /** The page last rendered by `displayPokemon`. */
    var page: int
    /** The summaries whose cards the last render requested (in any completion order). */
    var shown: seq<Summary>
    /** The pagination controls of the last render. */
    var controls: seq<Pager.Control>
    /** The lower-cased query that produced `filteredData` ("" until a search). */
    ghost var needle: string
    /** How many times a page has been rendered. */
    ghost var renders: nat

    ghost function PageCount(): nat
      reads this
    {
      Pager.TotalPages(|filteredData|)
    }

    /** The view is always the filter of the full listing with the last needle. */
    ghost predicate ViewMatchesNeedle()
      reads this
    {
      filteredData == SearchFilter.Filter(pokemonData, needle)
    }

    /**
     * Besides that, the page stays in 1..max(1, page count), and once something
     * has been rendered the cards requested and the controls are those of the
     * current page.
     */
    ghost predicate Valid()
      reads this
    {
      && ViewMatchesNeedle()
      && Pager.InRange(page, PageCount())
      && (renders > 0 ==>
            shown == Pager.Window(filteredData, page)
            && controls == Pager.Controls(page, PageCount()))
    }

    /** Before the listing arrives: nothing held, nothing rendered. */
    constructor ()
      ensures Valid()
      ensures pokemonData == [] && filteredData == [] && page == INITIAL_PAGE
      ensures shown == [] && controls == [] && renders == 0
    {
      pokemonData := [];
      filteredData := [];
      page := INITIAL_PAGE;
      shown := [];
      controls := [];
      needle := [];
      renders := 0;
    }

    /**
     * `displayPokemon(p)`: the cards of page p's window and the controls for
     * page p among the current page count.
     */
    method Display(p: int)
      requires ViewMatchesNeedle()
      requires Pager.InRange(p, PageCount())
      modifies this
      ensures Valid()
      ensures page == p && renders == old(renders) + 1
      ensures shown == Pager.Window(filteredData, p)
      ensures controls == Pager.Controls(p, PageCount())
      ensures pokemonData == old(pokemonData) && filteredData == old(filteredData) && needle == old(needle)
    {
      page := p;
      shown := Pager.Window(filteredData, p);
      controls := Pager.BuildControls(p, Pager.TotalPages(|filteredData|));
      renders := renders + 1;
    }

    /**
     * `fetchPokemon`: on success the listing becomes both the full index and
     * the view, and page 1 is rendered; on failure nothing changes.
     */
    method Load(listing: Option<seq<Summary>>)
      requires Valid()
      modifies this
      ensures Valid()
      ensures listing.None? ==>
        && pokemonData == old(pokemonData) && filteredData == old(filteredData)
        && page == old(page) && shown == old(shown) && controls == old(controls) && renders == old(renders)
      ensures listing.Some? ==>
        && pokemonData == listing.value && filteredData == listing.value
        && page == INITIAL_PAGE && renders == old(renders) + 1
    {
      match listing
      case None =>
      case Some(results) =>
        pokemonData := results;
        filteredData := results;
        needle := [];
        SearchFilter.FilterEmptyQuery(results);
        Display(INITIAL_PAGE);
    }

    /** The "<" handler: step back and render unless on page 1. */
    method Previous()
      requires Valid() && renders > 0
      modifies this
      ensures Valid()
      ensures page == Pager.Navigate(old(page), old(PageCount()), Pager.Previous)
      ensures renders == old(renders) + (if old(page) > 1 then 1 else 0)
      ensures pokemonData == old(pokemonData) && filteredData == old(filteredData)
      ensures old(page) == 1 ==> shown == old(shown) && controls == old(controls)
    {
      if page > 1 {
        Display(page - 1);
      }
    }

    /** The ">" handler: step forward and render unless on the last page (or there are none). */
    method Next()
      requires Valid() && renders > 0
      modifies this
      ensures Valid()
      ensures page == Pager.Navigate(old(page), old(PageCount()), Pager.Next)
      ensures renders == old(renders) + (if old(page) < old(PageCount()) then 1 else 0)
      ensures pokemonData == old(pokemonData) && filteredData == old(filteredData)
      ensures old(page) >= old(PageCount()) ==> shown == old(shown) && controls == old(controls)
    {
      var totalPages := Pager.TotalPages(|filteredData|);
      if page < totalPages {
        Display(page + 1);
      }
    }

    /** A page-number handler: the buttons exist for 1..page count only; render page i. */
    method GoTo(i: int)
      requires Valid() && renders > 0
      requires 1 <= i <= PageCount()
      modifies this
      ensures Valid()
      ensures page == Pager.Navigate(old(page), old(PageCount()), Pager.GoTo(i))
      ensures renders == old(renders) + 1
      ensures pokemonData == old(pokemonData) && filteredData == old(filteredData)
    {
      Display(i);
    }

    /**
     * `searchPokemon`: the view becomes the full listing filtered by the
     * lower-cased query, and page 1 is rendered. The full listing is untouched.
     */
    method Search(query: string)
      requires Valid()
      modifies this
      ensures Valid()
      ensures pokemonData == old(pokemonData)
      ensures filteredData == SearchFilter.SearchView(pokemonData, query)
      ensures page == 1 && renders == old(renders) + 1
      ensures shown == Pager.Window(filteredData, 1)
      ensures controls == Pager.Controls(1, PageCount())
    {
      filteredData := SearchFilter.SearchView(pokemonData, query);
      needle := SearchFilter.ToLower(query);
      Display(1);
    }
  }
}
