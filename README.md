# Pokédex catalog viewer: a Dafny model of its client-side catalog logic

The viewer is a single browser script, `pokemon.js`. It fetches the first 493
entries of the Pokémon catalog and keeps them as the full listing. It filters
that listing with the search box and shows the filtered view 24 cards per page,
with "<", numbered and ">" pagination buttons. It fetches each visible entry's
details and normalises them into a display record. When a card is clicked, it
shows trivia from a chat-completion service, or a fixed fallback sentence.

This project models the logic between those network calls and the DOM:

- `Pager` (`pager.dfy`) covers the page window as a clamped slice of the
  view, the page count `ceil(length / 24)`, the previous/next/page-number
  navigation rules, and the pagination control list. `BuildControls` is the
  loop that builds that list.
- `Listing` (`listing.dfy`) covers the listing summary, `split('/')`, and the
  id taken from a detail URL. `Join` is not in the source: it is the inverse
  used to prove `Split`'s round trip.
- `SearchFilter` (`search.dfy`) covers the lower-casing of the query,
  `includes` (substring search), and the order-preserving filter.
- `Detail` (`detail.dfy`) maps an already-parsed detail record to the display
  record. It holds the 18-entry `typeColors` table and uses the fixed stat
  positions 0, 1, 2 and 5.
- `Trivia` (`trivia.dfy`) picks the string to show from a chat-completion
  reply.
- `Catalog` (`catalog.dfy`) holds the class `Viewer`: the module state
  `pokemonData`, `filteredData` and the page shown. Its methods are `Load`,
  `Display`, `Previous`, `Next`, `GoTo` and `Search`. They keep the invariant
  `Valid()`: the view is the filter of the listing, the page is in
  `1..max(1, pages)`, and the cards requested and the buttons shown belong to
  that page.
- `Scenarios` (`scenarios.dfy`) holds concrete cases: 50 entries, the query
  "char", the stats `[39,52,43,60,50,65]`, the URL of entry 25, and a trivia
  server error.
- `Wrappers` (`wrappers.dfy`) holds `Option`. `None` stands for JavaScript's
  `undefined`.

Modelling choices (the model follows the code as written):

- An unknown first type gives an `undefined` background colour (`None`), not
  white. White is used only when there are no types.
- Search lower-cases only the query, not the names. So the match is not
  case-insensitive for names with capitals (`Scenarios.NameIsNotLowerCased`).
- `displayPagination`'s parameter shadows the outer `currentPage`, so the outer
  variable stays 1. The page a button steps from is the one last passed to
  `displayPokemon`. `Viewer.page` models that value, and `INITIAL_PAGE` is the
  outer variable.
- The outer `currentPage`, `pokemonData` and `filteredData` are never
  re-synchronised. If the listing arrives after a search has run, `Load`
  replaces the view with the full listing. It does this even when the search
  box holds a query.
- Where `fetchPokemonDetails` throws and returns `undefined`, `Normalize`
  returns `None`. That happens when the sprite object on the
  `generation-v`/`black-white` path is missing, or when there are fewer than
  six stats. A missing `front_default` alone is not an error: it gives an image
  of `None`.
- Inputs: the listing arrives in `Load` as an `Option`, where `None` means the
  fetch or the parse failed. Detail records arrive in `Normalize` as parsed
  values. The trivia reply arrives in `SelectTrivia` as a `Reply`.

## Model

| member | source | states |
|---|---|---|
| `Pager.TotalPages` | pokemon.js:146 | the page count is the least r with r*24 >= length; it is 0 exactly for an empty view |
| `Pager.Slice` | pokemon.js:71 | `slice(start, end)` clamps end to the length and gives the elements from start, or nothing when start is at or past the end |
| `Pager.Window` | pokemon.js:68-71 | page p's window is the view from (p-1)*24 (clamped) up to min(p*24, length), and holds at most 24 entries |
| `Pager.PagesArePrefix` | pokemon.js:69-71 | the windows of pages 1..k, one after another, are the view's prefix up to min(k*24, length) |
| `Pager.WindowsCoverView` | pokemon.js:69-71 | the windows of pages 1..TotalPages concatenate exactly to the filtered view |
| `Pager.WindowsDisjoint` | pokemon.js:69-70 | for pages p < q, page p's window ends at or before page q's starts, so windows never overlap |
| `Pager.IndexInExactlyOneWindow` | pokemon.js:69-70 | index i of the view lies in page p's window if and only if p = i/24 + 1 |
| `Pager.WindowNonEmptyExactlyOnPages` | pokemon.js:146-147 | a window is non-empty exactly for the pages 1..TotalPages that get a button |
| `Pager.NavigateInRange` | pokemon.js:137-165 | `Navigate`, the page after a "<", page-number or ">" click, keeps a page in 1..max(1,total) in that range; it equals the old page whenever the handler does not re-render, so "<" at page 1 and ">" at page >= total (also 0 pages) change nothing |
| `Pager.RepeatNext` | pokemon.js:159-165 | pressing ">" n times from page p reaches min(p+n, max(1,total)) |
| `Pager.RepeatPrevious` | pokemon.js:137-143 | pressing "<" n times from page p reaches max(1, p-n) |
| `Pager.ControlsShape` | pokemon.js:137-166 | `Controls`, the buttons `displayPagination` appends, are "<", the numbers 1..total ascending, then ">" (total+2 controls); a control is active iff it is the number equal to the current page |
| `Pager.ExactlyOneActive` | pokemon.js:147-151 | at most one control is active, and one is exactly when the current page is in 1..total |
| `Pager.BuildControls` | pokemon.js:134-166 | the button loop produces exactly the control list above |
| `Listing.Split` | pokemon.js:75 | `split('/')` gives at least one segment, none containing '/' |
| `Listing.JoinSplit` | pokemon.js:75 | joining the segments of a string with '/' gives the string back |
| `Listing.SplitJoin` | pokemon.js:75 | splitting '/'-joined separator-free segments gives the segments back |
| `Listing.SplitAtSeparator` | pokemon.js:75 | splitting a + "/" + b gives a's segments followed by b's |
| `Listing.ExtractId` | pokemon.js:75 | the id is undefined exactly when the URL has no '/', and otherwise contains no '/' |
| `Listing.ExtractIdOfDetailUrl` | pokemon.js:74-76 | for a URL prefix + "/" + id + "/" with id free of '/', the extracted id is id |
| `SearchFilter.ToLower` | pokemon.js:181 | lower-casing keeps the length, maps each upper-case letter 'A'..'Z' to its lower-case counterpart, keeps every other character, and leaves no upper-case letter |
| `SearchFilter.ToLowerIdempotent` | pokemon.js:181 | lower-casing twice equals lower-casing once |
| `SearchFilter.ContainsIffOccurs` | pokemon.js:183 | `Contains`, the left-to-right scan modelling `name.includes(needle)`, holds iff the needle occurs at some start position of the name |
| `SearchFilter.LacksFirstChar` | pokemon.js:183 | a name that lacks the needle's first character does not include the needle |
| `SearchFilter.Filter` | pokemon.js:182-184 | the filtered view is no longer than the listing, and holds only listed entries whose name includes the needle |
| `SearchFilter.FilterIsSubsequence` | pokemon.js:182-184 | the filtered view is an order-preserving subsequence of the listing |
| `SearchFilter.FilterMembership` | pokemon.js:182-184 | an entry is in the view iff it is listed and its name includes the needle |
| `SearchFilter.FilterAppend` | pokemon.js:182-184 | filtering a concatenation is concatenating the filtered parts |
| `SearchFilter.FilterAllMatch` | pokemon.js:182-184 | when every entry matches, the view is the listing itself |
| `SearchFilter.FilterEmptyQuery` | pokemon.js:181-184 | the empty query keeps the whole listing |
| `SearchFilter.FilterIdempotent` | pokemon.js:182-184 | filtering the view again with the same needle changes nothing |
| `SearchFilter.SearchViewSpec` | pokemon.js:180-185 | `SearchView`, the new `filteredData` of `searchPokemon`, is an order-preserving subsequence of the listing holding exactly the entries whose (not lower-cased) name includes the lower-cased query |
| `Detail.TypeColorsKeys` | pokemon.js:10-29 | the colour table has an entry for exactly the 18 standard types |
| `Detail.TypeNames` | pokemon.js:49 | the type names have as many entries as the type slots, each slot's name at its own position (order kept) |
| `Detail.BackgroundColor` | pokemon.js:57 | the background is white for no types and the table's colour for a known first type; it is defined exactly when there are no types or the first type is one of the standard types |
| `Detail.NormalizeSpec` | pokemon.js:45-66 | `Normalize`, the object literal of `fetchPokemonDetails`, yields a record iff the animated sprite object exists and there are at least 6 stats; it then keeps id, name and type order, takes the animated front sprite, sets hp/atk/def/spd from stats 0/1/2/5, and gives the first type's colour, undefined for an unknown first type, or white for no types |
| `Detail.ColorDefinedIffStandard` | pokemon.js:57 | the background colour is defined iff there are no types or the first type is a standard one |
| `Trivia.SelectTriviaSpec` | pokemon.js:270-278 | `SelectTrivia`, the string `getPokemonTrivia` returns, is the first choice's content when that is non-empty; in every other case (failure, no choices, empty or missing content) it is the fallback sentence; it is never empty |
| `Trivia.OnlyFirstChoiceCounts` | pokemon.js:270-272 | choices after the first never change the trivia shown |
| `Catalog.Viewer.constructor` | pokemon.js:6-8 | before loading the listing and the view are empty, the page is 1 and nothing is rendered |
| `Catalog.Viewer.Display` | pokemon.js:68-81 | rendering page p shows p's window and the controls for p, and changes neither listing nor view |
| `Catalog.Viewer.Load` | pokemon.js:31-43 | on success the listing becomes the full index and the view, and page 1 is rendered; on failure nothing changes |
| `Catalog.Viewer.Previous` | pokemon.js:137-143 | "<" gives Navigate(page, Previous); it renders only when the page was above 1; it keeps Valid() |
| `Catalog.Viewer.Next` | pokemon.js:159-165 | ">" gives Navigate(page, Next); it renders only when the page was below the count; it keeps Valid() |
| `Catalog.Viewer.GoTo` | pokemon.js:152-155 | a page-number click renders page i; it keeps Valid() |
| `Catalog.Viewer.Search` | pokemon.js:180-186 | the view becomes the listing filtered by the lower-cased query, the listing is unchanged, and page 1 is rendered with its window and controls |
| `Scenarios.SearchExample` | pokemon.js:180-185 | "char" over charmander, bulbasaur, charizard, squirtle keeps charmander and charizard in order |
| `Scenarios.QueryIsLowerCased` | pokemon.js:181 | the query "Char" finds "charmander" |
| `Scenarios.NameIsNotLowerCased` | pokemon.js:182-183 | the query "char" does not find "Charmander" |
| `Scenarios.FiftyEntries` | pokemon.js:69-71 | 50 entries give 3 pages, and page 3 is entries [48, 50) |
| `Scenarios.ExtractIdExample` | pokemon.js:75 | `https://pokeapi.co/api/v2/pokemon/25/` gives the id "25" |
| `Scenarios.StatsExample` | pokemon.js:58-61 | stats [39,52,43,60,50,65] give hp 39, atk 52, def 43, spd 65 |
| `Scenarios.ColorExample` | pokemon.js:57 | a fire/flying record gets the fire colour; a record without types gets white |
| `Scenarios.ServerErrorShowsFallback` | pokemon.js:270-278 | a body without choices, a failed request, an empty choices list and an empty content all show the fallback |

## Left out

- Network calls (`fetch` of the listing, of each detail and of the trivia) and JSON
  parsing: each is replaced by its parsed outcome passed in as a value.
- DOM construction (`createPokemonCard`, `createPaginationButton`, the `innerHTML`
  templates, the overlay contents and its class string): controls are modelled as
  (label, active) records, cards only as the summaries of the rendered window.
- The unawaited fan-out of detail fetches and the order in which cards are appended:
  `Viewer.shown` records which summaries a render requested, not the order cards appear.
- Cards of a superseded render: `innerHTML = ''` clears the list, but a detail fetch of an
  earlier render that finishes late still appends its card to the current list, so more
  than 24 cards can appear; `Viewer.shown` holds only the cards the last render requested.
- A listing body without `results`: the source then sets `pokemonData` to `undefined` before
  the copy throws, which breaks later searches; `Load` folds it into `None` and keeps the
  previous state.
- The crash when a detail fetch fails (`createPokemonCard` dereferencing `undefined`):
  `Normalize` only says when the record is `undefined`.
- The overlay open/close, the loading indicator, the outside-click and Escape listeners:
  UI toggles without state the core reads.
- The chat-completion prompt text and the bearer credential: a foreign service call.
- SearchFilter.ToLower: lower-cases ASCII letters only; JavaScript's full Unicode case
  mapping is not modelled.
- Pager.Window: requires page >= 1 (every caller passes a page of at least 1); `slice`
  with a negative start is not modelled.
- Detail.BackgroundColor: the table is looked up as a map, so inherited object keys such
  as `toString` are treated as unknown types rather than yielding a function.
- Trivia.SelectTrivia: a reply whose `choices` has another non-array shape, or whose first
  choice lacks `message`, is folded into `Failed` or a `None` content, which gives the same
  fallback.
