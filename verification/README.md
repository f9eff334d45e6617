# Company directory: a verified model

This project models the logic of a single-page company directory written in
React. The directory holds a fixed list of company records. It offers:

- a filtered, sorted and paginated directory view;
- an analytics dashboard computed over the whole list;
- a favorites view;
- a filter panel that edits the filter state.

The model covers that logic, and Dafny proves what the code promises about it.

Modules:

- `CompanyTypes` (`company.dfy`): the record shapes of `src/types/company.ts`.
- `Text` (`text.dfy`): `toLowerCase` and `includes`.
- `Sequences` (`sequences.dfy`): `Array.prototype.filter` and `slice`, including negative indices.
- `StableSort` (`stable_sort.dfy`): `Array.prototype.sort`.
  - Every comparator in the code extracts a key and compares it in one direction. The key is a lower-cased string, a year, a count, a rating or a bucket position.
  - The sort is therefore modelled as one stable sort by a key. It is proved sorted, a permutation and stable.
- `Pipeline` (`pipeline.dfy`): the derived values of `src/App.tsx`:
  - the filter, the sort and the pagination;
  - the active-filter count;
  - the favorites updater.
- `App` (`app.dfy`): class `Directory`, whose fields are the `useState` cells of `src/App.tsx`.
  - Each event handler is a method.
  - The methods keep the invariant `Valid`: the current page lies in `1..max(1, totalPages)`, and the details view always has a selected company.
- `Analytics` (`analytics.dfy`): the aggregates of `src/components/Analytics.tsx`:
  - the counting loops;
  - the industry, location, company-size and revenue tables;
  - the per-industry rating totals;
  - the top five rated companies;
  - the year histogram.
- `Favorites` (`favorites.dfy`): the list in `src/components/Favorites.tsx`.
- `FilterPanel` (`filter_panel.dfy`): the events of `src/components/FilterPanel.tsx`.

Design decisions:

- Ratings are held as integers in tenths of a star, so that comparing and summing them is exact.
- The page goes back to 1 only on a filter change (`src/App.tsx:106-109`). Changing the sort field or the order leaves the page where it was (`src/App.tsx:245`, `:259`). `SetSortField` and `ToggleSortOrder` therefore keep `currentPage`, and they still keep `Valid` because sorting does not change the page count.
- A selector value outside the vocabulary matches no company: the selectors are compared with `===` (`src/App.tsx:69-71`). `FilterCompanies` models that comparison.

## Model

| member | source | states |
|---|---|---|
| Text.ToLower | src/App.tsx:68 | same length; character by character, no upper-case ASCII letter remains and lower-case letters are kept |
| Text.IncludesIffOccurs | src/App.tsx:68 | `includes` holds exactly when the text occurs at some position |
| Sequences.Filter | src/App.tsx:67-74 | an order-preserving subsequence; an element is kept iff the callback accepts it; kept elements keep their multiplicity |
| Sequences.Slice | src/App.tsx:102 | for non-negative bounds, the clamped slice; never longer than the input; empty when the start is past the end |
| StableSort.Compare | src/App.tsx:90-92 | -1, 0 or 1; 0 iff the keys are equal; negative iff the first key comes first in the chosen direction |
| StableSort.CompareTransitive | src/App.tsx:90-92 | the comparator is transitive, so it is a consistent order for `sort` |
| StableSort.SortBy | src/App.tsx:79 | the sorted copy is a permutation of its input |
| StableSort.SortBySorted | src/App.tsx:79-93 | every pair of the result is in comparator order |
| StableSort.SortByStable | src/App.tsx:79-93 | the elements sharing a key appear in input order (stability) |
| StableSort.SortByEqualKeys | src/components/Analytics.tsx:60-63 | a comparator that always returns 0 leaves the array as it was |
| StableSort.SortByDistinctKeys | src/components/Analytics.tsx:111-113 | pairwise different keys stay pairwise different after sorting |
| StableSort.KeyClassOfPrefix | src/components/Analytics.tsx:102 | in a prefix of a list, each key's elements are a prefix of that key's elements in the whole list |
| Pipeline.FilterCompanies | src/App.tsx:66-75 | an order-preserving subsequence; a company is in it iff its lower-cased name contains the lower-cased search and each selector is `all` or equal to its field |
| Pipeline.NeutralFilterKeepsAll | src/App.tsx:68-73 | empty search and three `all` selectors keep the whole list, in order |
| Pipeline.SortCompanies | src/App.tsx:78-96 | a permutation; neighbours non-decreasing by key for `asc` and non-increasing for `desc`; equal keys in filtered order |
| Pipeline.TotalPages | src/App.tsx:99 | the ceiling of n / 9: enough pages for n, none spare; zero pages iff no companies |
| Pipeline.Paginate | src/App.tsx:100-103 | page p is the slice from (p-1)*9 to min(p*9, n); at most 9 items; empty past the last page |
| Pipeline.PagesReassemble | src/App.tsx:99-103 | pages 1 to `totalPages`, concatenated, give back the sorted list exactly |
| Pipeline.PageButtons | src/App.tsx:350 | the buttons are 1 to `totalPages`, in order |
| Pipeline.ShowingLabelMatchesPage | src/App.tsx:336 | on every offered page the "Showing" label names exactly the positions of that page's companies |
| Pipeline.ActiveCount | src/App.tsx:112-119 | at most 4; 0 iff the filter is neutral, that is, iff no field is active |
| Pipeline.CountActiveFilters | src/App.tsx:112-119 | the counting loop returns `ActiveCount` |
| Pipeline.ToggledFavorites | src/App.tsx:54-62 | the id's membership flips; every other id keeps its membership |
| Pipeline.ToggleTwiceRestores | src/App.tsx:53-63 | toggling the same id twice restores the set |
| App.Directory.constructor | src/App.tsx:29-45 | the initial state: directory view, grid, no selection, neutral filter, name ascending, page 1, favorites from the stored list or empty |
| App.Directory.ToggleFavorite | src/App.tsx:53-63 | flips only that id; keeps `Valid` |
| App.Directory.HandleFilterChange | src/App.tsx:106-109 | stores the new filter and goes to page 1 |
| App.Directory.EditFilter | src/components/FilterPanel.tsx:71-124 | a panel edit changes its own field only and goes to page 1 |
| App.Directory.ClearFilters | src/App.tsx:303-308 | back to the neutral filter and page 1; the filtered list is the whole list |
| App.Directory.EmptyResultExactly | src/App.tsx:296-309 | on a valid state the "No companies found" panel shows iff no company passes the filter; otherwise the page holds 1 to 9 companies |
| App.Directory.SetSortField | src/App.tsx:245 | changes the field only; the page and the page count stay |
| App.Directory.ToggleSortOrder | src/App.tsx:259 | flips the order only; the page and the page count stay |
| App.Directory.SetViewMode | src/App.tsx:272-283 | sets the grid or table mode |
| App.Directory.Navigate | src/App.tsx:152-176 | the header buttons set the view and keep the selection |
| App.Directory.SelectPage | src/App.tsx:350-355 | a page button sets that page, which stays in range |
| App.Directory.PreviousPage | src/App.tsx:342-343 | goes back one page unless on page 1; keeps the page in range |
| App.Directory.NextPage | src/App.tsx:368-369 | goes forward one page unless on the last; keeps the page in range |
| App.Directory.HandleViewDetails | src/App.tsx:121-124 | selects the company and shows the details view |
| App.Directory.HandleBackToDirectory | src/App.tsx:126-129 | shows the directory and clears the selection |
| Analytics.Distinct | src/components/Analytics.tsx:31-35 | the keys of the counting object: every value of the input, each exactly once |
| Analytics.DistinctFirstSeenOrder | src/components/Analytics.tsx:31-35 | `Object.entries` lists keys in first-insertion order: when one key is listed before another, every occurrence of the later key is preceded by an occurrence of the earlier one |
| Analytics.CountBy | src/components/Analytics.tsx:31-34 | the counting loop yields one entry per distinct key, in first-seen order, holding its number of occurrences |
| Analytics.TallyCounts | src/components/Analytics.tsx:32-34 | one entry per distinct key; each count is the key's multiplicity and at least 1 |
| Analytics.TallySum | src/components/Analytics.tsx:32-34 | the counts add up to the number of companies |
| Analytics.ByCountDescending | src/components/Analytics.tsx:37 | a permutation with non-increasing counts; equal counts keep table order |
| Analytics.IndustryData | src/components/Analytics.tsx:30-38 | industries by non-increasing count, one per distinct industry |
| Analytics.LocationData | src/components/Analytics.tsx:41-50 | the same ordering over locations cut to min(10, distinct) entries, so never more than 10 |
| Analytics.IndexOf | src/components/Analytics.tsx:62 | the first position holding the value, or -1 iff absent |
| Analytics.SortByEntryIndex | src/components/Analytics.tsx:60-63 | the comparator as written leaves the table unchanged |
| Analytics.SortByNameIndex | src/components/Analytics.tsx:60-63 | a permutation ordered by each name's position in the canonical list |
| Analytics.EmployeeData | src/components/Analytics.tsx:53-64 | as written: the size table in first-seen order |
| Analytics.EmployeeOrderIgnored | src/components/Analytics.tsx:62 | a table listing "5000+" before "100-200" stays so as written, and is reversed by the canonical order |
| Analytics.EmployeeDataCanonical | src/components/Analytics.tsx:60-63 | the size table as a permutation in canonical size order |
| Analytics.RevenueData | src/components/Analytics.tsx:67-78 | as written: the revenue table in first-seen order |
| Analytics.RevenueOrderIgnored | src/components/Analytics.tsx:76 | a table listing "$500M+" before "$10M - $50M" stays so as written, and is reversed by the canonical order |
| Analytics.RevenueDataCanonical | src/components/Analytics.tsx:74-77 | the revenue table as a permutation in canonical band order |
| Analytics.RatingTotalsByIndustry | src/components/Analytics.tsx:82-89 | the loop yields, per industry in first-seen order, the sum of its ratings and its company count |
| Analytics.RatingGroupsMatchIndustryData | src/components/Analytics.tsx:82-90 | the groups' names and counts are exactly the industry count table, hence a permutation of `industryData` |
| Analytics.RatingGroupsNonEmpty | src/components/Analytics.tsx:84-88 | every group counts at least one company, so no average divides by zero |
| Analytics.RatingTotalBounds | src/components/Analytics.tsx:87-93 | with all ratings in lo..hi, a group's total lies between count*lo and count*hi, so its average is in lo..hi |
| Analytics.TopRatedCompanies | src/components/Analytics.tsx:99-103 | min(5, n) of the companies, ratings non-increasing, no left-out company rated above the last listed, ties in input order |
| Analytics.ByYear | src/components/Analytics.tsx:113 | a permutation with non-decreasing years |
| Analytics.ByYearStrict | src/components/Analytics.tsx:111-113 | points with different years come out in strictly increasing year order |
| Analytics.YearHistogram | src/components/Analytics.tsx:106-114 | one point per distinct year, strictly increasing, each with that year's count; its years are exactly the founding years |
| Analytics.CompaniesByYear | src/components/Analytics.tsx:106-114 | the counting loop and the sort yield that histogram |
| Favorites.FavoriteCompanies | src/components/Favorites.tsx:14 | an order-preserving subsequence; a company is listed iff its id is marked |
| Favorites.UnknownIdsIgnored | src/components/Favorites.tsx:14 | marked ids that match no company make no difference |
| Favorites.EmptyStateExactly | src/components/Favorites.tsx:25 | the empty state shows iff no company of the directory is marked; always with no marks |
| Favorites.FavoriteCards | src/components/Favorites.tsx:37-43 | one card per listed company, in order |
| Favorites.CardsAgreeWithFavorites | src/components/Favorites.tsx:42 | every card has its heart filled and its company's id is marked |
| FilterPanel.ResetFilters | src/components/FilterPanel.tsx:26-33 | the reset state is neutral and counts no active filter |
| FilterPanel.ResetShowsEverything | src/components/FilterPanel.tsx:26-33 | after a reset every company is listed, in order |
| FilterPanel.Edit | src/components/FilterPanel.tsx:71-124 | an edit sets its own field and leaves the other three unchanged |
| FilterPanel.EditLaws | src/components/FilterPanel.tsx:71-124 | re-selecting the current value changes nothing; of two edits of a field the later wins |
| FilterPanel.SelectorOptions | src/components/FilterPanel.tsx:88-93 | `all` first, then the vocabulary in order |
| FilterPanel.ChoosingAnOption | src/components/FilterPanel.tsx:80-93 | picking option i activates the field iff i > 0, the other fields unaffected |
| FilterPanel.ClearControlsIffFiltered | src/components/FilterPanel.tsx:41-57 | the badge and "Clear All" show iff some field is active; after a reset they are hidden |

## Left out

- Rendering: JSX, CSS classes, icons and the recharts charts. This includes `CompanyCard`, `CompanyTable` and `CompanyDetails`, which are presentation with no behaviour of their own.
- Reading and writing favorites in `localStorage` (`src/App.tsx:32-35`, `48-50`) is external I/O. The constructor receives what was stored as a parameter, with `None` meaning nothing was stored. A stored value that is not valid JSON makes `JSON.parse` throw; that is not modelled.
- Analytics.RatingTotalsByIndustry: stops at the totals and counts. The average `total / count`, its `toFixed(2)` rounding and the sort by that average are floating point and are not modelled. `RatingTotalBounds` states what the totals imply about the average.
- `avgRating`, the floating-point mean over all companies, is not modelled. Its `toFixed(2)` would show `NaN` on an empty list.
- `useMemo` is memoisation only. The derived lists are recomputed functions of the state: `FilteredCompanies`, `SortedCompanies`, `PaginatedCompanies`.
- Text.ToLower: folds ASCII letters only. String order is lexicographic on characters, not on UTF-16 code units with full Unicode case mapping.
- JavaScript's key enumeration order for objects is modelled as first-insertion order. Integer-like keys, which JavaScript lists first and in ascending order, are not modelled. The `founded` years are sorted afterwards anyway, so `companiesByYear` is unaffected.
- The counting objects are plain `{}` literals, which inherit from `Object.prototype`. Category names are assumed not to be names of its members (`constructor`, `toString`, `valueOf`, `hasOwnProperty`, `__proto__`, and so on). For such a name the JavaScript counting differs. `counts[k] || 0` finds the inherited member, `!data[k]` in `ratingByIndustry` is false, and a `__proto__` key never becomes an own entry. The model counts these names like any other key, so `RatingGroupsMatchIndustryData` holds for them in the model but not in JavaScript.
- The `Number(year)` round trip through a string object key is not modelled. Years are kept as integers throughout.
- The data module `src/data/mockCompanies` is not part of this model. The company list and the selector vocabularies are parameters.
- StableSort.SortBy: is an insertion sort. The engine's own algorithm is not modelled, only the results it must produce, which are sorted, a permutation and stable.
- `viewMode` only chooses between two renderings of the same page. Its effect on output is not modelled.

## Findings

| source | as written | input that shows it | evidently intended | confidence | as-written member | corrected member |
|---|---|---|---|---|---|---|
| src/components/Analytics.tsx:62 | `order.indexOf(a) - order.indexOf(b)` looks up the `{ name, value }` entry object in a list of strings. Both lookups give -1, every comparison gives 0, and the sizes stay in first-seen order | companies whose sizes are first seen as "5000+" and then "100-200" give the bars "5000+", "100-200" | `order.indexOf(a.name) - order.indexOf(b.name)`, which lists sizes from "100-200" up to "5000+" | not executed | Analytics.EmployeeOrderIgnored | Analytics.EmployeeDataCanonical |
| src/components/Analytics.tsx:76 | the same lookup of the entry object, so revenue bands stay in first-seen order | companies whose bands are first seen as "$500M+" and then "$10M - $50M" give the bars in that order | `order.indexOf(a.name) - order.indexOf(b.name)`, which lists bands from "$10M - $50M" up to "$500M+" | not executed | Analytics.RevenueOrderIgnored | Analytics.RevenueDataCanonical |
