# Library panel — a Dafny model

This project models the logic of the front end's library panel
(`src/components/LibraryPanel.jsx`). The panel fetches the user's recent
generations from the backend's listing endpoint and shows them filtered by a
search box and sorted by one of four keys.

- **Backend** covers `useBackendBase`, which strips one trailing `/` from the
  configured backend URL. It also covers the listing endpoint
  `base + "/api/recent?limit=" + limit`. The endpoint is proved to split back
  into its base and page size, so two page sizes never share an endpoint.
- **Text** covers the string operations the panel calls: `trim` (with
  ECMAScript's set of whitespace characters), `toLowerCase`, `includes`, and
  the string comparison used for titles.
- **LibraryView** covers the memoised `filtered` list. It filters by the
  trimmed, lower-cased query and then sorts a copy with `byDate` or `byTitle`
  (or their negations). `Array.prototype.sort` is stable, so the sort is
  modelled as a stable insertion sort. For each sort key it is proved that
  the result:
  - is a permutation of the filtered items;
  - is ordered by that key;
  - keeps the original relative order of items with equal keys.
- **Panel** covers the component's state: `items`, `loading`, `error`,
  `search`, `sort` and `limit`. It is a class with one `mounted` flag per
  run of the load effect. The effect's cleanup clears the previous run's flag.
  A load completes through `Resolve`, which changes the panel only while the
  load's own flag is still set. The class invariant says the current,
  unfinished load always shows `loading` with an empty `error`. That is why a
  successful load ends with no error even though the success path never
  clears it. `OverlappingLoads` shows the effect of the staleness guard: with
  two overlapping loads, only the later one's outcome reaches the panel, in
  either completion order.

Values are immutable in Dafny, so deriving the view cannot change `items`.
The component gets the same guarantee by sorting a copy (`[...list]`).

## Model

| member | source | states |
|---|---|---|
| `Text.TrimStart` | src/components/LibraryPanel.jsx:45 | the result is a suffix of the input, everything dropped is whitespace, and it does not start with whitespace |
| `Text.TrimEnd` | src/components/LibraryPanel.jsx:45 | the result is a prefix of the input, everything dropped is whitespace, and it does not end with whitespace |
| `Text.Trim` | src/components/LibraryPanel.jsx:45 | the trimmed text is no longer than the input and has no whitespace at either end |
| `Text.TrimIsSlice` | src/components/LibraryPanel.jsx:45 | `trim` returns a slice `s[i..j]` with only whitespace before `i` and after `j` |
| `Text.TrimEmptyIff` | src/components/LibraryPanel.jsx:45 | the trimmed search is empty exactly when the search text is all whitespace |
| `Text.LowerChar` | src/components/LibraryPanel.jsx:45 | an upper-case ASCII letter maps to the lower-case letter 32 code points above it, and every other character is unchanged |
| `Text.ToLower` | src/components/LibraryPanel.jsx:45 | lower-casing keeps the length and lower-cases each character in place |
| `Text.LowerKeepsEnds` | src/components/LibraryPanel.jsx:45 | lower-casing a text that has no whitespace at either end leaves no whitespace at either end |
| `Text.OccursAtIncluded` | src/components/LibraryPanel.jsx:47 | if the query occurs at some index, `includes` finds it |
| `Text.IncludedOccurs` | src/components/LibraryPanel.jsx:47 | whatever `includes` finds is an occurrence at a definite index |
| `Text.IncludesIff` | src/components/LibraryPanel.jsx:47 | `includes` holds iff some index of the title starts a copy of the query |
| `Text.Includes` | src/components/LibraryPanel.jsx:47 | every prefix of the title, the empty query included, is contained in it, and a query longer than the title never is |
| `Text.CompareStrings` | src/components/LibraryPanel.jsx:53 | the title comparison returns -1, 0 or 1, and returns 0 iff the two strings are equal |
| `Text.CompareAntisymmetric` | src/components/LibraryPanel.jsx:53 | swapping the two titles negates the comparison, so `-byTitle(a, b)` is `byTitle(b, a)` |
| `Text.CompareTransitive` | src/components/LibraryPanel.jsx:53 | "sorts no later than" is transitive |
| `Backend.StripTrailingSlash` | src/components/LibraryPanel.jsx:6 | the result is the input or the input minus one final `/`, and it is shorter exactly when the input ends with `/` |
| `Backend.BackendBase` | src/components/LibraryPanel.jsx:5-8 | with no backend URL configured the base is `""`; otherwise it is the configured URL, minus one final `/` if it has one |
| `Backend.Decimal` | src/components/LibraryPanel.jsx:13 | the page size is rendered as a non-empty string of decimal digits with no leading zero, and the string is "0" iff the page size is 0 |
| `Backend.DecimalRoundTrip` | src/components/LibraryPanel.jsx:13 | reading the rendered page size back gives the page size |
| `Backend.Endpoint` | src/components/LibraryPanel.jsx:13 | both branches of the ternary equal base + `/api/recent?limit=` + page size |
| `Backend.EndpointRoundTrip` | src/components/LibraryPanel.jsx:13 | every endpoint splits back into the base and page size it was built from |
| `Backend.EndpointInjective` | src/components/LibraryPanel.jsx:13 | two page sizes give the same endpoint iff they are equal |
| `Backend.TrailingSlashIgnored` | src/components/LibraryPanel.jsx:5-13 | a base configured with one trailing `/` gives the same endpoint as the base without it |
| `Panel.LibraryPanel.Endpoint` | src/components/LibraryPanel.jsx:13 | the panel's endpoint is base + `/api/recent?limit=` + its page size, and it splits back into exactly that base and page size |
| `LibraryView.Title` | src/components/LibraryPanel.jsx:47 | the title is `""` iff the prompt is missing or empty, and otherwise it is the prompt |
| `LibraryView.Timestamp` | src/components/LibraryPanel.jsx:49-50 | a missing `created_at` counts as 0, and a present one as its own value |
| `LibraryView.Query` | src/components/LibraryPanel.jsx:45 | the query has no capital ASCII letters and no whitespace at either end |
| `LibraryView.Matches` | src/components/LibraryPanel.jsx:47 | the empty query matches every item, and a query longer than the title matches none |
| `LibraryView.QueryEmptyIff` | src/components/LibraryPanel.jsx:45-47 | the filter is skipped exactly when the search text is all whitespace |
| `LibraryView.FilterByQuery` | src/components/LibraryPanel.jsx:47 | the filter never lengthens the list |
| `LibraryView.FilterKeeps` | src/components/LibraryPanel.jsx:47 | an item is kept iff its lower-cased title (missing title as `""`) contains the query, and kept items keep every occurrence |
| `LibraryView.Filtered` | src/components/LibraryPanel.jsx:45-47 | a blank query keeps `items` unchanged; otherwise an item is kept iff it is in `items` and its title contains the query |
| `LibraryView.FilterByEmptyQuery` | src/components/LibraryPanel.jsx:45-47 | filtering with the empty query would keep the list unchanged, so skipping it changes nothing |
| `LibraryView.OrderOf` | src/components/LibraryPanel.jsx:55-58 | exactly the four sort values "newest", "oldest", "az" and "za" select a comparator |
| `LibraryView.ByDate` | src/components/LibraryPanel.jsx:48-52 | `byDate(a, b)` is positive iff `b` is newer than `a`, and zero iff the two timestamps are equal |
| `LibraryView.ByTitle` | src/components/LibraryPanel.jsx:53 | `byTitle(a, b)` is zero iff the titles are equal, and swapping the items negates it |
| `LibraryView.Compare` | src/components/LibraryPanel.jsx:48-58 | for each sort value, `a` may precede `b` iff `a` is at least as new ("newest"), at least as old ("oldest"), has a title no later ("az") or no earlier ("za") |
| `LibraryView.PrecedesTotal` | src/components/LibraryPanel.jsx:48-58 | each of the four comparators orders every pair of items one way or the other |
| `LibraryView.PrecedesTransitive` | src/components/LibraryPanel.jsx:48-58 | each of the four comparators is transitive |
| `LibraryView.TieIffSameKey` | src/components/LibraryPanel.jsx:48-58 | a comparator returns 0 exactly for items with equal timestamp (date keys) or equal title (title keys) |
| `LibraryView.Insert` | src/components/LibraryPanel.jsx:55-58 | one insertion step adds exactly the inserted item |
| `LibraryView.SortBy` | src/components/LibraryPanel.jsx:55-58 | the sorted copy is a permutation of the list |
| `LibraryView.InsertSorted` | src/components/LibraryPanel.jsx:55-58 | inserting into an ordered list keeps it ordered |
| `LibraryView.SortSorted` | src/components/LibraryPanel.jsx:55-58 | the sorted copy is in comparator order |
| `LibraryView.InsertWithKey` | src/components/LibraryPanel.jsx:55-58 | an inserted item lands in front of all items with its key |
| `LibraryView.SortStable` | src/components/LibraryPanel.jsx:55-58 | the sort is stable: for each key, the items with that key keep their relative order |
| `LibraryView.WithKeyFilterCommute` | src/components/LibraryPanel.jsx:47 | filtering by query and picking the items of one key commute |
| `LibraryView.View` | src/components/LibraryPanel.jsx:44-60 | the view is a permutation of the filtered items, and any sort value other than the four keys leaves the filtered list in its original order |
| `LibraryView.ViewContents` | src/components/LibraryPanel.jsx:44-60 | the view is a permutation of the filtered items, and it contains an item iff the item is in `items` and the query is blank or matches |
| `LibraryView.ViewOfBlankSearch` | src/components/LibraryPanel.jsx:45-58 | with an all-whitespace search the view is a permutation of `items` for any sort value |
| `LibraryView.ViewSortedStable` | src/components/LibraryPanel.jsx:48-58 | for a known sort key the view is in comparator order and stable with respect to `items` |
| `LibraryView.ViewNewest` | src/components/LibraryPanel.jsx:48-55 | "newest" gives non-increasing timestamps (missing as 0), and equal timestamps keep their order from `items` |
| `LibraryView.ViewOldest` | src/components/LibraryPanel.jsx:48-56 | "oldest" gives non-decreasing timestamps, and equal timestamps keep their order from `items` |
| `LibraryView.ViewAZ` | src/components/LibraryPanel.jsx:53-57 | "az" gives ascending titles (missing as `""`), and equal titles keep their order |
| `LibraryView.ViewZA` | src/components/LibraryPanel.jsx:53-58 | "za" gives descending titles, and equal titles keep their order |
| `LibraryView.OldestIsNotReversedNewest` | src/components/LibraryPanel.jsx:48-56 | with two items created at the same time, "newest" and "oldest" give the same order, so "oldest" is not "newest" reversed |
| `LibraryView.TwoItemListing` | src/components/LibraryPanel.jsx:44-60 | Alpha (2024-01-01) and Beta (2024-02-01) show as Alpha, Beta under "oldest" and as Beta, Alpha under "za" |
| `Panel.Settle` | src/components/LibraryPanel.jsx:28-35 | a load succeeds iff the body parsed: an array body gives exactly its items and any other body `[]`; a rejection gives its own message, or "Failed to load library" when that message is empty; a non-ok status gives "Failed to load library" |
| `Panel.LibraryPanel.constructor` | src/components/LibraryPanel.jsx:11-20 | the initial state: page size 24, no items, loading, no error, empty search, sort "newest" |
| `Panel.LibraryPanel.Cleanup` | src/components/LibraryPanel.jsx:41 | the cleanup clears the `mounted` flag, and nothing else changes |
| `Panel.LibraryPanel.Load` | src/components/LibraryPanel.jsx:23-28 | a load gets a fresh mounted flag and fetches the current endpoint; it sets `loading` and clears `error`; items are untouched |
| `Panel.LibraryPanel.RunEffect` | src/components/LibraryPanel.jsx:22-42 | one effect run supersedes every earlier load and starts the new current load |
| `Panel.LibraryPanel.Unmount` | src/components/LibraryPanel.jsx:41 | after the final cleanup no load is current, and nothing visible changes |
| `Panel.LibraryPanel.SetLimit` | src/components/LibraryPanel.jsx:12-13 | a new page size starts a load iff it differs from the old one, because the effect depends on the endpoint |
| `Panel.LibraryPanel.SetSearch` | src/components/LibraryPanel.jsx:19 | typing in the search box changes only `search` and starts no load |
| `Panel.LibraryPanel.SetSort` | src/components/LibraryPanel.jsx:20 | choosing a sort key changes only `sort` and starts no load |
| `Panel.LibraryPanel.Filtered` | src/components/LibraryPanel.jsx:44-60 | the panel's `filtered` list holds only items of `items`, and with a blank search it is a permutation of `items` |
| `Panel.LibraryPanel.Resolve` | src/components/LibraryPanel.jsx:27-38 | a current load ends loading and sets either the new items with no error or the error with items kept; a superseded load changes neither items, error, loading nor the derived view |
| `Panel.OverlappingLoads` | src/components/LibraryPanel.jsx:22-42 | when load B starts after load A, in either completion order, the panel ends with B's outcome only and not loading |

## Left out

- `src/App.jsx`, `src/Button.jsx` and `src/Input.jsx` are not part of this model. They hold the page layout, the theme toggle and class-name lookup tables, and have no behaviour beyond presentation.
- Rendering (lines 62-132) is left out: the skeleton cards, the card colours, the "Untitled" and "Recent" fallbacks, and the "No results" notice.
- The network is left out. `fetch` and `res.json()` are replaced by a `Response` value handed to `Resolve`. A rejected `fetch` and a body that is not JSON both become `Rejected` with the error's message.
- `import.meta.env.VITE_BACKEND_URL` is an input of the constructor, as an optional string.
- React scheduling is left out. State updates apply at once, in the order the effect makes them, and the async runtime appears only as the order of `RunEffect` and `Resolve` calls. `Resolve` requires a load that has not completed yet, because each fetch settles once.
- Dates: `created_at` is taken as an already-parsed timestamp in milliseconds. ISO-8601 parsing is not modelled, nor the NaN comparator results that an unparseable date gives.
- `Text.CompareStrings`: `localeCompare` is modelled as lexicographic order by character code. Locale collation is not modelled.
- `Text.ToLower`: only ASCII letters are lower-cased. Unicode case mapping is not modelled.
- Strings are sequences of Unicode scalar values, not UTF-16 code units. Text outside the Basic Multilingual Plane can therefore compare differently.
- The page size is any natural number. The menu's fixed options (9, 12, 24, 36, 48) and `parseInt` are not modelled.
- Listing entries are records. An array element that is not an object (a number, `null`) is not modelled.
- An error thrown without a `message` is treated as one with an empty message, which falls back to the default.
