/** The session state of `src/App.tsx`: one field per `useState` cell and
    one method per event handler. The derived lists are the functions of
    module `Pipeline` applied to the current fields. */
module App {
  import opened CompanyTypes
  import opened Sequences
  import opened Pipeline
  import opened FilterPanel

  datatype View = DirectoryView | AnalyticsView | FavoritesView | DetailsView

  datatype ViewMode = Grid | Table

  class Directory {
    /** `mockCompanies`, fixed for the session. */
    const companies: seq<Company>

    var currentView: View
    var viewMode: ViewMode
    var selectedCompany: Option<Company>
    var favorites: set<string>
    var filters: FilterState
    var sortField: SortField
    var sortOrder: SortOrder
    var currentPage: int

    function FilteredCompanies(): seq<Company>
      reads this
    {
      FilterCompanies(companies, filters)
    }

    function SortedCompanies(): seq<Company>
      reads this
    {
      SortCompanies(FilteredCompanies(), sortField, sortOrder)
    }

    /** `totalPages`. */
    function PageCount(): nat
      reads this
    {
      TotalPages(|SortedCompanies()|)
    }

    function PaginatedCompanies(): seq<Company>
      reads this
    {
      Paginate(SortedCompanies(), currentPage)
    }

    /** The page stays within the pages the list has (page 1 when it has
        none), and the details screen always has a company to show. */
    ghost predicate Valid()
      reads this
    {
      && 1 <= currentPage <= Max(1, PageCount())
      && (currentView == DetailsView ==> selectedCompany.Some?)
    }

    /** The initial state. `saved` is the favorites list already read back
        from storage, `None` when nothing was stored. */
    constructor (companies: seq<Company>, saved: Option<seq<string>>)
      ensures Valid()
      ensures this.companies == companies
      ensures currentView == DirectoryView && viewMode == Grid && selectedCompany == None
      ensures favorites == (if saved.None? then {} else set id | id in saved.value)
      ensures IsNeutral(filters) && sortField == ByName && sortOrder == Asc && currentPage == 1
    {
      this.companies := companies;
      currentView := DirectoryView;
      viewMode := Grid;
      selectedCompany := None;
      favorites := if saved.None? then {} else set id | id in saved.value;
      filters := FilterState("", All, All, All);
      sortField := ByName;
      sortOrder := Asc;
      currentPage := 1;
    }

    /** `toggleFavorite`: hand the updater to `setFavorites`. */
    method ToggleFavorite(id: string)
      requires Valid()
      modifies this`favorites
      ensures Valid()
      ensures id in favorites <==> id !in old(favorites)
      ensures forall other :: other != id ==> (other in favorites <==> other in old(favorites))
    {
      favorites := ToggledFavorites(favorites, id);
    }

    /** `handleFilterChange`: every filter edit, including both clear
        buttons, goes back to page 1. */
    method HandleFilterChange(newFilters: FilterState)
      requires Valid()
      modifies this`filters, this`currentPage
      ensures Valid()
      ensures filters == newFilters && currentPage == 1
    {
      filters := newFilters;
      currentPage := 1;
    }

    /** The search box or a selector of the filter panel: one field takes the
        new value, the other three keep theirs, and the list goes back to
        page 1. */
    method EditFilter(field: FilterField, value: string)
      requires Valid()
      modifies this`filters, this`currentPage
      ensures Valid() && currentPage == 1
      ensures FieldValue(filters, field) == value
      ensures forall other :: other != field ==> FieldValue(filters, other) == FieldValue(old(filters), other)
    {
      HandleFilterChange(Edit(filters, field, value));
    }

    /** "Clear Filters" on the empty result and "Clear All" on the filter
        panel: back to the neutral filter, which lists every company. */
    method ClearFilters()
      requires Valid()
      modifies this`filters, this`currentPage
      ensures Valid() && currentPage == 1
      ensures IsNeutral(filters)
      ensures FilteredCompanies() == companies
    {
      HandleFilterChange(ResetFilters());
      ResetShowsEverything(companies);
    }

    /** The "No companies found" panel shows exactly when no company passes
        the filter; otherwise the current page holds one to nine companies. */
    lemma EmptyResultExactly()
      requires Valid()
      ensures |PaginatedCompanies()| == 0 <==> |FilteredCompanies()| == 0
      ensures |FilteredCompanies()| > 0 ==> 1 <= |PaginatedCompanies()| <= ItemsPerPage
    {
    }

    /** The sort-field selector. The page is left where it was, and it stays
        in range because sorting does not change how many companies there are. */
    method SetSortField(field: SortField)
      requires Valid()
      modifies this`sortField
      ensures Valid()
      ensures sortField == field
      ensures PageCount() == old(PageCount())
    {
      sortField := field;
    }

    /** The ascending/descending button; the page is left where it was. */
    method ToggleSortOrder()
      requires Valid()
      modifies this`sortOrder
      ensures Valid()
      ensures sortOrder == (if old(sortOrder) == Asc then Desc else Asc)
      ensures PageCount() == old(PageCount())
    {
      sortOrder := if sortOrder == Asc then Desc else Asc;
    }

    /** The grid and table buttons. */
    method SetViewMode(mode: ViewMode)
      requires Valid()
      modifies this`viewMode
      ensures Valid() && viewMode == mode
    {
      viewMode := mode;
    }

    /** The header buttons, which offer every view except the details view.
        The selected company is left as it was. */
    method Navigate(view: View)
      requires Valid()
      requires view != DetailsView
      modifies this`currentView
      ensures Valid() && currentView == view
    {
      currentView := view;
    }

    /** A numbered page button. The bar is shown only when there is more
        than one page, and it offers the pages 1 to `totalPages`. */
    method SelectPage(page: int)
      requires Valid()
      requires PageCount() > 1 && page in PageButtons(PageCount())
      modifies this`currentPage
      ensures Valid() && currentPage == page
    {
      currentPage := page;
    }

    /** The Previous button, disabled on page 1. */
    predicate PreviousEnabled()
      reads this
    {
      PageCount() > 1 && currentPage != 1
    }

    /** The Next button, disabled on the last page. */
    predicate NextEnabled()
      reads this
    {
      PageCount() > 1 && currentPage != PageCount()
    }

    method PreviousPage()
      requires Valid()
      modifies this`currentPage
      ensures Valid()
      ensures currentPage == if old(PreviousEnabled()) then old(currentPage) - 1 else old(currentPage)
    {
      if PreviousEnabled() {
        currentPage := currentPage - 1;
      }
    }

    method NextPage()
      requires Valid()
      modifies this`currentPage
      ensures Valid()
      ensures currentPage == if old(NextEnabled()) then old(currentPage) + 1 else old(currentPage)
    {
      if NextEnabled() {
        currentPage := currentPage + 1;
      }
    }

    /** `handleViewDetails`. */
    method HandleViewDetails(company: Company)
      requires Valid()
      modifies this`selectedCompany, this`currentView
      ensures Valid()
      ensures selectedCompany == Some(company) && currentView == DetailsView
    {
      selectedCompany := Some(company);
      currentView := DetailsView;
    }

    /** `handleBackToDirectory`. */
    method HandleBackToDirectory()
      requires Valid()
      modifies this`selectedCompany, this`currentView
      ensures Valid()
      ensures selectedCompany == None && currentView == DirectoryView
    {
      currentView := DirectoryView;
      selectedCompany := None;
    }
  }
}
