/** The derived values of `src/App.tsx`: the filtered list, the sorted copy,
    the page count and the current page, the active-filter count, and the
    favorites updater. Each is a pure function of the state cells it reads;
    the class `App.Directory` holds those cells. */
module Pipeline {
  import opened CompanyTypes
  import opened Text
  import opened Sequences
  import opened StableSort

  /** `ITEMS_PER_PAGE`. */
  const ItemsPerPage: nat := 9

  // ---------------------------------------------------------------- filter

  /** A company passes the filter when its lower-cased name contains the
      lower-cased search text and each selector is `All` or equal to the
      company's field. */
  predicate MatchesFilter(c: Company, f: FilterState)
  {
    && Includes(ToLower(c.name), ToLower(f.search))
    && (f.industry == All || c.industry == f.industry)
    && (f.location == All || c.location == f.location)
    && (f.employeeCount == All || c.employeeCount == f.employeeCount)
  }

  /** The callback handed to `filter`. */
  function Matcher(f: FilterState): Company -> bool
  {
    c => MatchesFilter(c, f)
  }

  /** `filteredCompanies`: the companies that pass the filter, in their
      original order, each as often as in the input. */
  function FilterCompanies(cs: seq<Company>, f: FilterState): (r: seq<Company>)
    ensures IsSubsequence(r, cs)
    ensures forall c :: c in r <==> c in cs && MatchesFilter(c, f)
    ensures forall c :: multiset(r)[c] == if MatchesFilter(c, f) then multiset(cs)[c] else 0
  {
    Filter(cs, Matcher(f))
  }

  /** The initial filter state, which `Clear Filters` restores as well. */
  predicate IsNeutral(f: FilterState)
  {
    f.search == "" && f.industry == All && f.location == All && f.employeeCount == All
  }

  /** An empty search and three `All` selectors keep every company, in order. */
  lemma NeutralFilterKeepsAll(cs: seq<Company>, f: FilterState)
    requires IsNeutral(f)
    ensures FilterCompanies(cs, f) == cs
  {
    forall i | 0 <= i < |cs|
      ensures Matcher(f)(cs[i])
    {
      IncludesEmpty(ToLower(cs[i].name));
    }
    FilterAll(cs, Matcher(f));
  }

  // ------------------------------------------------------------------ sort

  /** The value the sort comparator extracts: string fields lower-cased,
      `founded` as a number. */
  function SortKeyOf(c: Company, field: SortField): SortKey
  {
    match field
    case ByName => Text(ToLower(c.name))
    case ByLocation => Text(ToLower(c.location))
    case ByIndustry => Text(ToLower(c.industry))
    case ByFounded => Num(c.founded)
  }

  function KeyFor(field: SortField): Company -> SortKey
  {
    c => SortKeyOf(c, field)
  }

  /** Non-strict order on keys. */
  predicate KeyLe(a: SortKey, b: SortKey)
  {
    a == b || KeyLess(a, b)
  }

  /** `sortedCompanies`: a stably sorted copy of the filtered list. It is a
      permutation of its input; neighbouring keys are non-decreasing for
      `Asc` and non-increasing for `Desc`; companies with equal keys keep
      their input order. */
  function SortCompanies(cs: seq<Company>, field: SortField, order: SortOrder): (r: seq<Company>)
    ensures multiset(r) == multiset(cs)
    ensures forall i :: 0 <= i < |r| - 1 ==>
      if order == Asc then KeyLe(SortKeyOf(r[i], field), SortKeyOf(r[i + 1], field))
      else KeyLe(SortKeyOf(r[i + 1], field), SortKeyOf(r[i], field))
    ensures SameKeyClasses(r, cs, KeyFor(field))
  {
    SortBySorted(cs, KeyFor(field), order == Desc);
    SortByStable(cs, KeyFor(field), order == Desc);
    SortBy(cs, KeyFor(field), order == Desc)
  }

  // ------------------------------------------------------------ pagination

  /** `Math.ceil(n / ITEMS_PER_PAGE)`. */
  function TotalPages(n: nat): (r: nat)
    ensures r * ItemsPerPage >= n
    ensures r == 0 || (r - 1) * ItemsPerPage < n
    ensures r == 0 <==> n == 0
  {
    (n + ItemsPerPage - 1) / ItemsPerPage
  }

  /** `paginatedCompanies`: the slice starting at `(page - 1) * 9`, nine long. */
  function Paginate<T>(s: seq<T>, page: int): (r: seq<T>)
    ensures page >= 1 ==> |r| <= ItemsPerPage
    ensures page >= 1 && (page - 1) * ItemsPerPage <= |s| ==>
      r == s[(page - 1) * ItemsPerPage..Min(page * ItemsPerPage, |s|)]
    ensures page > TotalPages(|s|) ==> r == []
  {
    var start := (page - 1) * ItemsPerPage;
    Slice(s, start, start + ItemsPerPage)
  }

  /** Pages 1 to `k`, concatenated. */
  function ConcatPages<T>(s: seq<T>, k: nat): seq<T>
  {
    if k == 0 then [] else ConcatPages(s, k - 1) + Paginate(s, k)
  }

  lemma {:induction false} ConcatPagesPrefix<T>(s: seq<T>, k: nat)
    ensures ConcatPages(s, k) == s[..Min(k * ItemsPerPage, |s|)]
  {
    if k > 0 {
      ConcatPagesPrefix(s, k - 1);
      var a, b := Min((k - 1) * ItemsPerPage, |s|), Min(k * ItemsPerPage, |s|);
      if (k - 1) * ItemsPerPage <= |s| {
        assert s[..a] + s[a..b] == s[..b];
      }
    }
  }

  /** Concatenating pages 1 to `TotalPages` gives back the sorted list. */
  lemma PagesReassemble<T>(s: seq<T>)
    ensures ConcatPages(s, TotalPages(|s|)) == s
  {
    ConcatPagesPrefix(s, TotalPages(|s|));
  }

  /** The page buttons: 1 to `totalPages`, in order. */
  function PageButtons(totalPages: nat): (r: seq<int>)
    ensures |r| == totalPages
    ensures forall p :: p in r <==> 1 <= p <= totalPages
    ensures forall i :: 0 <= i < |r| ==> r[i] == i + 1
  {
    if totalPages == 0 then [] else PageButtons(totalPages - 1) + [totalPages]
  }

  /** The "Showing {from} to {to}" label. */
  function ShowingLabel(page: int, n: nat): (int, int)
  {
    ((page - 1) * ItemsPerPage + 1, Min(page * ItemsPerPage, n))
  }

  /** On every page the buttons offer, the label names exactly the 1-based
      positions of the companies on that page. */
  lemma ShowingLabelMatchesPage<T>(s: seq<T>, page: int)
    requires 1 <= page <= TotalPages(|s|)
    ensures var (from, to) := ShowingLabel(page, |s|);
      1 <= from <= to <= |s| && Paginate(s, page) == s[from - 1..to]
  {
  }

  // ------------------------------------------------------ active filters

  datatype FilterField = SearchField | IndustryField | LocationField | EmployeeCountField

  /** The value a filter field currently holds. */
  function FieldValue(f: FilterState, field: FilterField): string
  {
    match field
    case SearchField => f.search
    case IndustryField => f.industry
    case LocationField => f.location
    case EmployeeCountField => f.employeeCount
  }

  /** A field constrains the list: a non-empty (truthy) search text, or a
      selector other than `All`. */
  predicate IsActive(f: FilterState, field: FilterField)
  {
    if field == SearchField then f.search != "" else FieldValue(f, field) != All
  }

  function Indicator(b: bool): nat { if b then 1 else 0 }

  /** The number of active fields. */
  function ActiveCount(f: FilterState): (r: nat)
    ensures r <= 4
    ensures r == 0 <==> IsNeutral(f)
    ensures r == 0 <==> forall field :: !IsActive(f, field)
  {
    Indicator(IsActive(f, SearchField)) + Indicator(IsActive(f, IndustryField))
      + Indicator(IsActive(f, LocationField)) + Indicator(IsActive(f, EmployeeCountField))
  }

  /** `activeFilterCount`: one increment of a local counter per active field. */
  method CountActiveFilters(f: FilterState) returns (count: nat)
    ensures count == ActiveCount(f)
  {
    count := 0;
    if f.search != "" { count := count + 1; }
    if f.industry != All { count := count + 1; }
    if f.location != All { count := count + 1; }
    if f.employeeCount != All { count := count + 1; }
  }

  // ------------------------------------------------------------- favorites

  /** The updater handed to `setFavorites`: a copy of the set with `id`
      removed when present and added when absent. */
  function ToggledFavorites(prev: set<string>, id: string): (r: set<string>)
    ensures id in r <==> id !in prev
    ensures forall other :: other != id ==> (other in r <==> other in prev)
  {
    if id in prev then prev - {id} else prev + {id}
  }

  /** Toggling the same id twice restores the set. */
  lemma ToggleTwiceRestores(prev: set<string>, id: string)
    ensures ToggledFavorites(ToggledFavorites(prev, id), id) == prev
  {
  }
}
