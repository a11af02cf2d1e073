/**
 * The staff management page: the search text, the three filter selects, the
 * 0-based table page and the rows per page, the handlers that change them, and
 * the request the page sends for the current state.
 */
module StaffPage {
  import opened Base
  import opened Text
  import opened StaffSchema
  import opened StaffQuery
  import opened StaffService

  /** The keys of the page's filter object. */
  const FilterKeys: set<string> := {"department", "status", "role"}

  const InitialFilters: map<string, string> := map["department" := "", "status" := "", "role" := ""]

  /** The choices of the three filter selects; `""` is the "All …" entry. */
  const DepartmentOptions: seq<string> := ["", "Engineering", "Sales", "Marketing", "HR", "Finance"]
  const StatusOptions: seq<string> := ["", "active", "inactive", "on-leave"]
  const RoleOptions: seq<string> := ["", "Manager", "Team Lead", "Senior", "Junior", "Intern"]

  /** The choices of the table's rows-per-page select. */
  const RowsPerPageOptions: seq<int> := [5, 10, 25, 50]

  /** A key the filter object may lack reads as `undefined`. */
  function Get(m: map<string, string>, key: string): (o: Option<string>)
    ensures o.Some? <==> key in m
    ensures o.Some? ==> o.value == m[key]
  {
    if key in m then Some(m[key]) else None
  }

  /** `{ ...filters, search: searchQuery }`, as the service reads it. */
  function ApiFilters(filters: map<string, string>, searchQuery: string): (f: Filters)
    ensures f.search == Some(searchQuery)
    ensures f.department == Get(filters, "department")
    ensures f.status == Get(filters, "status") && f.role == Get(filters, "role")
  {
    Filters(Some(searchQuery), Get(filters, "department"), Get(filters, "status"), Get(filters, "role"))
  }

  /** The URL `fetchStaff` requests: the 1-based page the server counts in, and the merged filters. */
  function FetchUrl(page: int, rowsPerPage: int, filters: map<string, string>, searchQuery: string): string {
    ApiUrl + "?" + Join(QueryPairs(page + 1, rowsPerPage, ApiFilters(filters, searchQuery)))
  }

  /** What the server's listing selects with, for a page state. */
  function UiSelection(filters: map<string, string>, searchQuery: string): ListParams {
    ListParams(None, None, Some(searchQuery), Get(filters, "department"), Get(filters, "status"), Get(filters, "role"))
  }

  /** No value of the state holds a character the unencoded URL would misread. */
  predicate SafeState(filters: map<string, string>, searchQuery: string) {
    var f := ApiFilters(filters, searchQuery);
    SafeFilter(f.search) && SafeFilter(f.department) && SafeFilter(f.status) && SafeFilter(f.role)
  }

  class PageState {
    var searchQuery: string
    var filters: map<string, string>
    var page: int
    var rowsPerPage: int
    var filterMenuOpen: bool

    /** The page always has the three filter keys and a page index from the table. */
    predicate Valid()
      reads this
    {
      page >= 0 && FilterKeys <= filters.Keys
    }

    constructor()
      ensures Valid()
      ensures searchQuery == "" && filters == InitialFilters && page == 0 && rowsPerPage == 10
      ensures !filterMenuOpen
    {
      searchQuery := "";
      filters := InitialFilters;
      page := 0;
      rowsPerPage := 10;
      filterMenuOpen := false;
    }

    /** `fetchStaff`: the service call for the current state. */
    method Fetch() returns (url: string)
      ensures url == FetchUrl(page, rowsPerPage, filters, searchQuery)
    {
      url := GetStaffUrl(Some(page + 1), Some(rowsPerPage), ApiFilters(filters, searchQuery));
    }

    /** `handleSearch`: the typed text, back to the first page. */
    method HandleSearch(value: string)
      requires Valid()
      modifies this
      ensures Valid()
      ensures searchQuery == value && page == 0
      ensures filters == old(filters) && rowsPerPage == old(rowsPerPage) && filterMenuOpen == old(filterMenuOpen)
    {
      searchQuery := value;
      page := 0;
    }

    /** `handleFilterChange`: only the named key changes; back to the first page, menu closed. */
    method HandleFilterChange(name: string, value: string)
      requires Valid()
      modifies this
      ensures Valid()
      ensures filters == old(filters)[name := value] && page == 0 && !filterMenuOpen
      ensures forall k :: k in old(filters) && k != name ==> k in filters && filters[k] == old(filters)[k]
      ensures searchQuery == old(searchQuery) && rowsPerPage == old(rowsPerPage)
    {
      filters := filters[name := value];
      page := 0;
      filterMenuOpen := false;
    }

    /** `handleChangePage`: the table's new 0-based page. */
    method HandleChangePage(newPage: nat)
      requires Valid()
      modifies this
      ensures Valid()
      ensures page == newPage
      ensures searchQuery == old(searchQuery) && filters == old(filters)
      ensures rowsPerPage == old(rowsPerPage) && filterMenuOpen == old(filterMenuOpen)
    {
      page := newPage;
    }

    /** `handleChangeRowsPerPage`: the chosen size, parsed in base 10; back to the first page. */
    method HandleChangeRowsPerPage(value: string)
      requires Valid() && ParseInt(value).Some?
      modifies this
      ensures Valid()
      ensures rowsPerPage == ParseInt(value).value && page == 0
      ensures searchQuery == old(searchQuery) && filters == old(filters) && filterMenuOpen == old(filterMenuOpen)
    {
      rowsPerPage := ParseInt(value).value;
      page := 0;
    }

    /** `handleResetFilters`: no search, every select back to "All", the first page. */
    method HandleResetFilters()
      requires Valid()
      modifies this
      ensures Valid()
      ensures searchQuery == "" && filters == InitialFilters && page == 0
      ensures rowsPerPage == old(rowsPerPage) && filterMenuOpen == old(filterMenuOpen)
    {
      searchQuery := "";
      filters := InitialFilters;
      page := 0;
    }

    /** The clear button of the search field empties the text and keeps the page. */
    method ClearSearch()
      requires Valid()
      modifies this
      ensures Valid()
      ensures searchQuery == "" && page == old(page)
      ensures filters == old(filters) && rowsPerPage == old(rowsPerPage) && filterMenuOpen == old(filterMenuOpen)
    {
      searchQuery := "";
    }
  }

  // ---------------------------------------------------------------------
  // What the server makes of the page's request.
  // ---------------------------------------------------------------------

  /**
   * The server lists page `page + 1` of `rowsPerPage` records, so its window starts
   * after `page * rowsPerPage` records, and it selects exactly the records the
   * page's search and filters describe.
   */
  lemma ServerSeesPageState(rx: Engine, page: nat, rowsPerPage: int, filters: map<string, string>, searchQuery: string, s: Staff)
    requires rowsPerPage != 0 && SafeState(filters, searchQuery)
    ensures var q := ReadParams(QueryOf(FetchUrl(page, rowsPerPage, filters, searchQuery)));
      && PageNumber(q) == page + 1
      && PageSize(q) == rowsPerPage
      && StartIndex(PageNumber(q), PageSize(q)) == page * rowsPerPage
      && (Selected(rx, q, s) <==> Selected(rx, UiSelection(filters, searchQuery), s))
  {
    ListingSeesRequest(rx, Some(page + 1), Some(rowsPerPage), ApiFilters(filters, searchQuery), s);
  }

  /** After a reset the request carries no filter, so the server selects every record. */
  lemma ResetSelectsAll(rx: Engine, rowsPerPage: int, s: Staff)
    ensures Selected(rx, ReadParams(QueryOf(FetchUrl(0, rowsPerPage, InitialFilters, ""))), s)
  {
    var f := ApiFilters(InitialFilters, "");
    assert f == Filters(Some(""), Some(""), Some(""), Some(""));
    ListingSeesRequest(rx, Some(1), Some(rowsPerPage), f, s);
  }

  /** Every rows-per-page choice reads back as itself. */
  lemma RowsPerPageOptionsParse(k: nat)
    requires k < |RowsPerPageOptions|
    ensures ParseInt(IntToString(RowsPerPageOptions[k])) == Some(RowsPerPageOptions[k])
    ensures RowsPerPageOptions[k] > 0
  {
    IntRoundTrip(RowsPerPageOptions[k]);
  }

  // ---------------------------------------------------------------------
  // The selects against the schema.
  // ---------------------------------------------------------------------

  /**
   * The department and role choices are not values of the schema's enums, while
   * the status choices are; so picking any department or role narrows the
   * listing of a valid collection to nothing.
   */
  lemma SelectsAgainstSchema(d: nat, r: nat, st: nat)
    requires 0 < d < |DepartmentOptions| && 0 < r < |RoleOptions| && 0 < st < |StatusOptions|
    ensures DepartmentOptions[d] !in Departments
    ensures RoleOptions[r] !in Roles
    ensures StatusOptions[st] in StaffStatuses
  {
    assert Departments == ["maintenance", "installation", "support", "management"];
    assert Roles == ["technician", "engineer", "manager", "admin"];
  }

  lemma DepartmentChoiceSelectsNothing(rx: Engine, records: seq<Staff>, p: ListParams, d: nat)
    requires forall k :: 0 <= k < |records| ==> ValidStaff(records[k])
    requires 0 < d < |DepartmentOptions| && p.department == Some(DepartmentOptions[d])
    ensures Select(rx, p, records) == []
  {
    SelectsAgainstSchema(d, 1, 1);
    forall k | 0 <= k < |records| ensures !Selected(rx, p, records[k]) {
      ValidStaffFields(records[k]);
    }
  }

  lemma RoleChoiceSelectsNothing(rx: Engine, records: seq<Staff>, p: ListParams, r: nat)
    requires forall k :: 0 <= k < |records| ==> ValidStaff(records[k])
    requires 0 < r < |RoleOptions| && p.role == Some(RoleOptions[r])
    ensures Select(rx, p, records) == []
  {
    SelectsAgainstSchema(1, r, 1);
    forall k | 0 <= k < |records| ensures !Selected(rx, p, records[k]) {
      ValidStaffFields(records[k]);
    }
  }
}
