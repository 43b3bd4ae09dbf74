# NASA NEO chart — Dafny model

A model of the data pipeline and view state of the `NeoChart` React component
and of its `FilterDropdown` companion. `NeoChart` receives a list of
Near-Earth-Object records. It turns each record into a four-column row (name,
minimum and maximum estimated diameter in km, orbiting body). It stores those
rows behind a header row and lists the distinct orbiting bodies in sorted order.
It filters the stored rows by the body chosen in the dropdown, and it shows the
result as a bar chart or as a table. The dropdown narrows its list of bodies by
a case-insensitive search. It reports "All" (the empty string) or the clicked
body, and it opens and closes with a toggle button.

Modules:

- `Wrappers`: `Option`, which stands for a JavaScript value that may be `undefined`/`null`.
- `Strings`: the JavaScript string primitives the components use. `Less` is the
  order that `Array.prototype.sort` uses without a comparator. It is proved equal
  to lexicographic order on UTF-16 code units (`LessIsCodeUnitOrder`).
  `ToLower` models `toLowerCase` on ASCII letters. `Includes` models `includes`.
- `Arrays`: the array operations. `MapSeq` is `map` and `KeepIf` is `filter`.
  `Dedupe` is `[...new Set(xs)]` and `SortStrings` is `sort()` on strings.
  Each comes with its lemmas: membership, multiplicity, subsequence, idempotence,
  sortedness, and uniqueness of the sorted order.
- `Chart` (`src/components/Chart.js`): the record and row types, the row
  mapping, the body list, the selection filter and the chart projection as
  functions. The component's state is the class `NeoChart`. Its fields are the
  seven `useState` variables. Its methods are the fetch completion, the
  selection effect, the `onFilterChange` setter and the two view buttons, and
  `Render` is its rendering. `Mount`, `ChooseBody` and `ChooseAll` run these
  transitions in the order React triggers them.
- `Filter` (`src/components/Filter.js`): the body search, the button label and
  the highlight rule as functions. The class `FilterDropdown` holds `searchTerm`
  and `isDropdownOpen` and has the click and typing handlers as methods.

Two behaviours of the code are modelled as written:

- With no body selected, the selection effect sets the shown rows to the stored
  table *including its header row* (Chart.js:55-56). This replaces the
  header-less rows set right after the fetch (Chart.js:39), because the effect
  runs again when `data` changes (Chart.js:58). The table then lists the header
  as a row, and the chart receives its captions twice
  (`Chart.EmptySelectionKeepsHeader`, `Chart.Mount`, `Chart.ChooseAll`). So with no
  body selected the rows shown are not only the NEO rows.
- The component does not pass `selectedOrbit` to the dropdown (Chart.js:83).
  The button therefore always reads "Orbiting Body (All)", and "All" is always
  the highlighted entry (`Chart.NeoChart.Render`, via `Filter.AllHighlighted`).

## Model

| member | source | states |
|---|---|---|
| Chart.OrbitLabel | src/components/Chart.js:32 | the fourth column is the first close approach's `orbiting_body` when it is present and non-empty, and "Unknown" otherwise (no approaches, a missing body, or an empty string); it is never empty |
| Chart.ToRowsAt | src/components/Chart.js:28-33 | one row per record, in the same order; row i carries record i's name and its min and max diameters unchanged, and record i's orbit label |
| Chart.ToRowsOrbits | src/components/Chart.js:28-33 | no mapped row has an empty orbit |
| Arrays.Dedupe | src/components/Chart.js:36 | the Set-spread result has no duplicates and holds exactly the elements of its input |
| Arrays.SortStringsContents | src/components/Chart.js:36 | sorting is a permutation: same elements, same multiplicities |
| Arrays.SortStringsAscending | src/components/Chart.js:36 | sorting a duplicate-free list gives a strictly ascending list |
| Arrays.AscendingUnique | src/components/Chart.js:36 | two strictly ascending lists with the same elements are equal, so any correct sort gives the same body list |
| Strings.LessIsCodeUnitOrder | src/components/Chart.js:36 | the order used for sorting is exactly lexicographic order on the strings' UTF-16 code units, which is the order of JavaScript's default sort |
| Strings.LessTotal | src/components/Chart.js:36 | any two different strings are ordered one way or the other (with `LessIrreflexive` and `LessTransitive`: a strict total order) |
| Chart.OrbitalBodiesSpec | src/components/Chart.js:36 | the body list is strictly ascending (so duplicate-free), and a label is in it exactly when some mapped row has that orbit |
| Chart.OrbitalBodiesUnique | src/components/Chart.js:36 | every strictly ascending list of exactly the rows' orbits equals the body list |
| Chart.SelectRowsMatching | src/components/Chart.js:53-54 | with a non-empty selection, the shown rows are an order-preserving subsequence of `data`; a row is shown exactly when it is stored and its orbit equals the selection; each such row keeps its multiplicity |
| Chart.SelectRowsIdempotent | src/components/Chart.js:52-58 | applying the same selection to its own result changes nothing |
| Chart.SelectionDropsHeader | src/components/Chart.js:38-54 | a non-empty selection other than "Orbit" gives the same rows whether or not the header row is stored in front |
| Chart.EmptySelectionKeepsHeader | src/components/Chart.js:55-56 | with no selection the shown rows are the stored table, header first, and the chart data starts with the chart header twice |
| Chart.ListedBodyHasRows | src/components/Chart.js:36-54 | every listed body is a non-empty selection that keeps at least one row |
| Chart.SelectListedBody | src/components/Chart.js:53-54 | in a stored table, selecting a listed body shows a non-empty set of rows, exactly the stored rows whose orbit is that body |
| Chart.ChartRowsAt | src/components/Chart.js:89 | the chart data is the three-caption header plus, for each shown row in order, its first three columns; its length is one more than the shown rows |
| Chart.ChartHeight | src/components/Chart.js:63 | the chart is 600px high exactly when no body is selected, and 400px otherwise |
| Chart.NeoChart.constructor | src/components/Chart.js:13-19 | initial state: nothing stored, loading, no error, no selection, graph view |
| Chart.NeoChart.Load | src/components/Chart.js:22-49 | on success: the header plus the mapped rows are stored, the mapped rows are shown and the body list is stored; on failure: the error is "Unable to load the data." and nothing is stored; loading ends either way; the invariant `Valid` holds |
| Chart.NeoChart.ApplySelection | src/components/Chart.js:52-58 | the shown rows become the selection of the stored rows; `Valid` (shown rows are a subsequence of the stored ones) is kept |
| Chart.NeoChart.SetSelectedBody | src/components/Chart.js:83 | the dropdown's callback sets the selected body and nothing else |
| Chart.NeoChart.ShowGraph | src/components/Chart.js:70 | the Graph View button selects the chart view |
| Chart.NeoChart.ShowTable | src/components/Chart.js:76 | the Table View button selects the table view |
| Chart.NeoChart.Render | src/components/Chart.js:60-102 | "Loading" exactly while loading; otherwise the error message; otherwise the body list, a dropdown label that always reads "All" with "All" always the highlighted entry, and the chart (with one more row than the shown rows and the selection-dependent height) or the table of the shown rows, according to the view |
| Chart.Mount | src/components/Chart.js:22-58 | after mounting, a successful fetch shows the whole stored table, header included; a failed fetch renders the error message and stores nothing |
| Chart.ChooseBody | src/components/Chart.js:83 | picking a listed body closes the dropdown and shows exactly the stored rows orbiting it, at least one; the stored rows, body list, view, loading and error state and the search term stay as they were |
| Chart.ChooseAll | src/components/Chart.js:83 | picking "All" closes the dropdown and shows the whole stored table again; the stored rows, body list, view, loading and error state and the search term stay as they were |
| Chart.EarthMarsExample | src/components/Chart.js:28-56 | two records orbiting Earth and Mars give two rows and the body list ["Earth", "Mars"], and selecting "Mars" keeps exactly the second row |
| Strings.IncludesOccurs | src/components/Filter.js:19 | `includes` holds exactly when the term occurs at some position of the text |
| Filter.SearchMembers | src/components/Filter.js:18-20 | a body is kept exactly when it is listed and its lower-cased name contains the lower-cased term |
| Filter.SearchKeepsOrder | src/components/Filter.js:18-20 | the result is a subsequence of the body list, so a strictly ascending or duplicate-free list stays so |
| Filter.SearchEmptyTerm | src/components/Filter.js:18-20 | an empty search term keeps every body |
| Filter.SearchFindsBody | src/components/Filter.js:18-20 | typing a listed body's full name, in any letter case, keeps that body |
| Filter.SearchIgnoresCase | src/components/Filter.js:19 | two search terms that differ only in letter case give the same result |
| Filter.SearchUpperCase | src/components/Filter.js:19 | upper-casing the search term does not change the result |
| Filter.Label | src/components/Filter.js:28 | the button shows the chosen body, or "All" when `selectedOrbit` is missing or empty |
| Filter.HighlightExclusive | src/components/Filter.js:49-64 | at most one body entry is highlighted, and a highlighted non-empty body excludes "All" |
| Filter.FilterDropdown.constructor | src/components/Filter.js:14-15 | the search box starts empty and the list closed |
| Filter.FilterDropdown.FilteredBodies | src/components/Filter.js:18-20 | every listed entry is one of the given bodies, and with an empty search box all of them are listed |
| Filter.FilterDropdown.ToggleDropdown | src/components/Filter.js:25 | the toggle button flips whether the list is open |
| Filter.ToggleTwice | src/components/Filter.js:25 | two clicks on the toggle button restore the original open state |
| Filter.FilterDropdown.SetSearchTerm | src/components/Filter.js:39 | typing replaces the search term |
| Filter.FilterDropdown.ChooseAll | src/components/Filter.js:45-47 | clicking "All" reports the empty string and closes the list |
| Filter.FilterDropdown.ChooseBody | src/components/Filter.js:58-60 | clicking a listed body reports exactly that body, which is one of the given bodies, and closes the list |

## Left out

- `src/services/api.js` (the HTTP GET and its console logging) is not part of this model. The fetch result is the input `Chart.Fetch`: the records, or a failure.
- A record without `estimated_diameter` or `close_approach_data` makes the mapping throw (Chart.js:30-32). The same `catch` then reports the load error. `Chart.Neo` cannot express such a record, so that path appears only as `Fetch.NetworkError`. An `orbiting_body` that is a truthy non-string value cannot be expressed either.
- Diameters are `real` values passed through unchanged and never computed on. `src/components/TableView.js` (number formatting with `isNaN`/`toFixed`) is not part of this model.
- `src/App.js` (static layout), the chart library's options (title, chart area, axes, legend, width), the CSS class strings and the ▲/▼ arrow are not modelled.
- React scheduling is not modelled: `async`/`await`, render cycles and when effects fire. Each effect and handler is an explicit method. `Mount`, `ChooseBody` and `ChooseAll` fix the order in which React runs them.
- Strings.ToLower: maps only the ASCII letters A-Z. JavaScript's `toLowerCase` also lower-cases other Unicode letters, so for non-ASCII text the case-insensitivity lemmas cover ASCII letters only.
- Strings are sequences of Unicode scalar values. A JavaScript string holding a lone surrogate cannot be expressed.
- Arrays.Dedupe: keeps the first occurrences in their original order, as a JavaScript `Set` does. Its contract does not state that order, because the list is sorted straight afterwards.
- Arrays.SortStrings: its ordering is proved only for duplicate-free input. That is the only input it receives (after `Dedupe`).
