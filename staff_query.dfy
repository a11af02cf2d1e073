/**
 * Listing staff: the query string of `GET /api/staff` becomes a page number, a
 * page size and a MongoDB filter document; the matching records are sorted
 * newest first, cut to a skip/limit window, and reported with a pagination block.
 */
module StaffQuery {
  import opened Base
  import opened Text
  import opened StaffSchema

  /** The query string; every key may be absent. */
  datatype ListParams = ListParams(
    page: Option<string>,
    limit: Option<string>,
    search: Option<string>,
    department: Option<string>,
    status: Option<string>,
    role: Option<string>)

  /**
   * The regular-expression engine: `new RegExp(pattern, 'i')` either throws (`None`)
   * or gives the case-insensitive test it built. The engine is a parameter of the model.
   */
  type Engine = string -> Option<string -> bool>

  /** Whether the expression built from `pattern` finds a match in `text`; false when it cannot be built. */
  predicate Test(rx: Engine, pattern: string, text: string) {
    rx(pattern).Some? && rx(pattern).value(text)
  }

  /**
   * What the engine is assumed to do on a pattern without metacharacters: build an
   * expression that finds the pattern anywhere in the text, ignoring case.
   */
  ghost predicate ReadsLiterally(rx: Engine) {
    && (forall pattern :: IsLiteralPattern(pattern) ==> rx(pattern).Some?)
    && (forall pattern, text :: IsLiteralPattern(pattern) ==>
          (Test(rx, pattern, text) <==> IncludesIgnoreCase(text, pattern)))
  }

  /** `{ path: new RegExp(pattern, 'i') }`. */
  datatype Clause = Clause(path: string, pattern: string)

  /** A filter document: an optional `$or` of regular-expression clauses and equality tests. */
  datatype Query = Query(any: Option<seq<Clause>>, equal: map<string, string>)

  /** The value a filter path reads from a record; other paths are absent. */
  function PathValue(s: Staff, path: string): Option<string> {
    if path == "name" then Some(s.name)
    else if path == "email" then Some(s.email)
    else if path == "role" then Some(s.role)
    else if path == "department" then Some(s.department)
    else if path == "status" then Some(s.status)
    else None
  }

  /** A regular-expression clause holds when the path is present and the expression matches it. */
  predicate ClauseHolds(rx: Engine, c: Clause, s: Staff) {
    var v := PathValue(s, c.path);
    v.Some? && Test(rx, c.pattern, v.value)
  }

  /** How the database reads a filter document: some clause of `$or` holds, and every equality holds. */
  predicate Matches(rx: Engine, q: Query, s: Staff) {
    && (q.any.Some? ==> exists c :: c in q.any.value && ClauseHolds(rx, c, s))
    && (forall path :: path in q.equal ==> PathValue(s, path) == Some(q.equal[path]))
  }

  /** What the listing promises to select, stated on the parameters directly. */
  predicate Selected(rx: Engine, p: ListParams, s: Staff) {
    && (Truthy(p.search) ==>
          || Test(rx, p.search.value, s.name)
          || Test(rx, p.search.value, s.email)
          || Test(rx, p.search.value, s.role))
    && (Truthy(p.department) ==> s.department == p.department.value)
    && (Truthy(p.status) ==> s.status == p.status.value)
    && (Truthy(p.role) ==> s.role == p.role.value)
  }

  /** The search holds no metacharacter, so the expression reads it as a literal. */
  predicate LiteralSearch(p: ListParams) {
    Truthy(p.search) ==> IsLiteralPattern(p.search.value)
  }

  /** The search expression cannot be built, so the handler throws before it queries. */
  predicate SearchRefused(rx: Engine, p: ListParams) {
    Truthy(p.search) && rx(p.search.value).None?
  }

  /**
   * With a search of no metacharacters, a record is selected when the search occurs,
   * ignoring case, in its name, e-mail or role, and it matches the set filters.
   */
  lemma LiteralSearchSelects(rx: Engine, p: ListParams, s: Staff)
    requires ReadsLiterally(rx) && LiteralSearch(p)
    ensures !SearchRefused(rx, p)
    ensures Selected(rx, p, s) <==>
      && (Truthy(p.search) ==>
            || IncludesIgnoreCase(s.name, p.search.value)
            || IncludesIgnoreCase(s.email, p.search.value)
            || IncludesIgnoreCase(s.role, p.search.value))
      && (Truthy(p.department) ==> s.department == p.department.value)
      && (Truthy(p.status) ==> s.status == p.status.value)
      && (Truthy(p.role) ==> s.role == p.role.value)
  {
    if Truthy(p.search) {
      var t := p.search.value;
      assert Test(rx, t, s.name) <==> IncludesIgnoreCase(s.name, t);
      assert Test(rx, t, s.email) <==> IncludesIgnoreCase(s.email, t);
      assert Test(rx, t, s.role) <==> IncludesIgnoreCase(s.role, t);
    }
  }

  /**
   * The filter document is built by successive updates of one variable, as the
   * controller does; building the search expression may throw, and then there is
   * no document.
   */
  method BuildQuery(rx: Engine, p: ListParams) returns (q: Option<Query>)
    ensures q.None? <==> SearchRefused(rx, p)
    ensures q.Some? ==> forall s :: Matches(rx, q.value, s) <==> Selected(rx, p, s)
    ensures q.Some? ==> q.value.equal.Keys <= {"department", "status", "role"}
  {
    var query := Query(None, map[]);
    if Truthy(p.search) {
      var pattern := p.search.value;
      if rx(pattern).None? {
        return None;
      }
      query := Query(Some(SearchClausesOf(pattern)), map[]);
    }
    if Truthy(p.department) {
      query := query.(equal := query.equal["department" := p.department.value]);
    }
    if Truthy(p.status) {
      query := query.(equal := query.equal["status" := p.status.value]);
    }
    if Truthy(p.role) {
      query := query.(equal := query.equal["role" := p.role.value]);
    }
    forall s
      ensures Matches(rx, query, s) <==> Selected(rx, p, s)
    {
      SearchClauses(rx, p, query, s);
      EqualityTests(p, query, s);
    }
    q := Some(query);
  }

  function SearchClausesOf(pattern: string): seq<Clause> {
    [Clause("name", pattern), Clause("email", pattern), Clause("role", pattern)]
  }

  /** The `$or` part holds exactly when the search, if set, matches the name, the e-mail or the role. */
  lemma SearchClauses(rx: Engine, p: ListParams, q: Query, s: Staff)
    requires q.any == if Truthy(p.search) then Some(SearchClausesOf(p.search.value)) else None
    ensures (q.any.Some? ==> exists c :: c in q.any.value && ClauseHolds(rx, c, s)) <==>
      (Truthy(p.search) ==>
          || Test(rx, p.search.value, s.name)
          || Test(rx, p.search.value, s.email)
          || Test(rx, p.search.value, s.role))
  {
    if Truthy(p.search) {
      var cs := SearchClausesOf(p.search.value);
      assert ClauseHolds(rx, cs[0], s) <==> Test(rx, p.search.value, s.name);
      assert ClauseHolds(rx, cs[1], s) <==> Test(rx, p.search.value, s.email);
      assert ClauseHolds(rx, cs[2], s) <==> Test(rx, p.search.value, s.role);
      assert (exists c :: c in cs && ClauseHolds(rx, c, s)) <==>
        ClauseHolds(rx, cs[0], s) || ClauseHolds(rx, cs[1], s) || ClauseHolds(rx, cs[2], s);
    }
  }

  /** The equality part holds exactly when every set filter equals the record's field. */
  lemma EqualityTests(p: ListParams, q: Query, s: Staff)
    requires q.equal.Keys <= {"department", "status", "role"}
    requires "department" in q.equal <==> Truthy(p.department)
    requires "status" in q.equal <==> Truthy(p.status)
    requires "role" in q.equal <==> Truthy(p.role)
    requires Truthy(p.department) ==> q.equal["department"] == p.department.value
    requires Truthy(p.status) ==> q.equal["status"] == p.status.value
    requires Truthy(p.role) ==> q.equal["role"] == p.role.value
    ensures (forall path :: path in q.equal ==> PathValue(s, path) == Some(q.equal[path])) <==>
      && (Truthy(p.department) ==> s.department == p.department.value)
      && (Truthy(p.status) ==> s.status == p.status.value)
      && (Truthy(p.role) ==> s.role == p.role.value)
  {
  }

  // ---------------------------------------------------------------------
  // Page number and page size.
  // ---------------------------------------------------------------------

  /** `parseInt(req.query.page, 10) || 1`: never zero. */
  function PageNumber(p: ListParams): (n: int)
    ensures n != 0
  {
    ParseIntOr(p.page, 1)
  }

  /** `parseInt(req.query.limit, 10) || 10`: never zero. */
  function PageSize(p: ListParams): (n: int)
    ensures n != 0
  {
    ParseIntOr(p.limit, 10)
  }

  /** `(page - 1) * limit`, the number of records skipped. */
  function StartIndex(page: int, limit: int): int {
    (page - 1) * limit
  }

  function Abs(x: int): nat {
    if x < 0 then -x else x
  }

  /** `Math.ceil(total / limit)`: the least integer at or above the quotient, for either sign of `limit`. */
  function CeilDiv(total: nat, limit: int): (r: int)
    requires limit != 0
    ensures limit > 0 ==> (r - 1) * limit < total <= r * limit
    ensures limit < 0 ==> r * limit <= total < (r - 1) * limit
  {
    if limit > 0 then (total + limit - 1) / limit else -(total / -limit)
  }

  // ---------------------------------------------------------------------
  // Selecting, sorting and cutting.
  // ---------------------------------------------------------------------

  /** The records that the parameters select, in collection order. */
  function Select(rx: Engine, p: ListParams, xs: seq<Staff>): (r: seq<Staff>)
    ensures |r| <= |xs|
    ensures forall k :: 0 <= k < |r| ==> Selected(rx, p, r[k])
    ensures forall s :: s in xs && Selected(rx, p, s) ==> s in r
    ensures forall k :: 0 <= k < |r| ==> r[k] in xs
  {
    if xs == [] then []
    else
      var rest := Select(rx, p, xs[1..]);
      assert xs == [xs[0]] + xs[1..];
      if Selected(rx, p, xs[0]) then [xs[0]] + rest else rest
  }

  /** `find(query)`: the records the filter document matches, in collection order. */
  function Filter(rx: Engine, q: Query, xs: seq<Staff>): (r: seq<Staff>)
    ensures forall k :: 0 <= k < |r| ==> Matches(rx, q, r[k])
  {
    if xs == [] then []
    else
      var rest := Filter(rx, q, xs[1..]);
      if Matches(rx, q, xs[0]) then [xs[0]] + rest else rest
  }

  /** A filter document that matches exactly the selected records finds exactly the selection. */
  lemma {:induction false} FilterAgrees(rx: Engine, q: Query, p: ListParams, xs: seq<Staff>)
    requires forall s :: Matches(rx, q, s) <==> Selected(rx, p, s)
    ensures Filter(rx, q, xs) == Select(rx, p, xs)
  {
    if xs != [] {
      FilterAgrees(rx, q, p, xs[1..]);
    }
  }

  predicate NewestFirst(xs: seq<Staff>) {
    forall i, j :: 0 <= i < j < |xs| ==> xs[i].createdAt >= xs[j].createdAt
  }

  /** Puts `x` before the first record that is not newer than it. */
  function Insert(x: Staff, xs: seq<Staff>): (r: seq<Staff>)
    requires NewestFirst(xs)
    ensures |r| == |xs| + 1
    ensures r[0] == x || (xs != [] && r[0] == xs[0])
    ensures NewestFirst(r)
    ensures multiset(r) == multiset(xs) + multiset{x}
  {
    if xs == [] || x.createdAt >= xs[0].createdAt then
      [x] + xs
    else
      var rest := Insert(x, xs[1..]);
      assert xs == [xs[0]] + xs[1..];
      [xs[0]] + rest
  }

  /** `.sort({ createdAt: -1 })`; records created at the same moment keep one fixed order. */
  function SortNewestFirst(xs: seq<Staff>): (r: seq<Staff>)
    ensures NewestFirst(r)
    ensures multiset(r) == multiset(xs)
  {
    if xs == [] then []
    else
      assert xs == [xs[0]] + xs[1..];
      Insert(xs[0], SortNewestFirst(xs[1..]))
  }

  /** `.skip(start).limit(size)` on a sorted cursor. */
  function Window(xs: seq<Staff>, start: nat, size: nat): (r: seq<Staff>)
    ensures start >= |xs| ==> r == []
    ensures start < |xs| ==> r == xs[start..if start + size < |xs| then start + size else |xs|]
  {
    if start >= |xs| then []
    else if start + size < |xs| then xs[start..start + size]
    else xs[start..]
  }

  // ---------------------------------------------------------------------
  // The response of GET /api/staff.
  // ---------------------------------------------------------------------

  datatype Pagination = Pagination(total: nat, page: int, limit: int, pages: int)

  /**
   * 200 with the page, or 500 when the search expression cannot be built or the skip
   * is negative, which the database refuses.
   * A negative `limit` is read by the driver as a single batch of `|limit|` records.
   */
  datatype ListReply =
    | Listed(count: nat, pagination: Pagination, data: seq<Staff>)
    | ListFailed

  function ListStatus(r: ListReply): nat {
    if r.Listed? then 200 else 500
  }

  /** The listing the controller answers for a collection. */
  function Listing(rx: Engine, records: seq<Staff>, p: ListParams): (r: ListReply)
  {
    var page := PageNumber(p);
    var limit := PageSize(p);
    var start := StartIndex(page, limit);
    if SearchRefused(rx, p) || start < 0 then ListFailed
    else
      var matching := Select(rx, p, records);
      var data := Window(SortNewestFirst(matching), start, Abs(limit));
      Listed(|data|, Pagination(|matching|, page, limit, CeilDiv(|matching|, limit)), data)
  }

  // ---------------------------------------------------------------------
  // What the listing promises.
  // ---------------------------------------------------------------------

  /** Missing, non-numeric and zero values give page 1 and size 10. */
  lemma PagingDefaults(p: ListParams)
    ensures p.page.None? || ParseInt(p.page.value) in {None, Some(0)} ==> PageNumber(p) == 1
    ensures p.limit.None? || ParseInt(p.limit.value) in {None, Some(0)} ==> PageSize(p) == 10
  {
  }

  /** The page and size the client renders with a template literal are read back unchanged. */
  lemma PagingRoundTrip(p: ListParams, page: int, limit: int)
    requires page != 0 && limit != 0
    requires p.page == Some(IntToString(page)) && p.limit == Some(IntToString(limit))
    ensures PageNumber(p) == page && PageSize(p) == limit
  {
    IntRoundTrip(page);
    IntRoundTrip(limit);
  }

  /**
   * A listing answers with a page of at most `|limit|` records that all match the
   * parameters, come from the collection and are newest first; `count` is the page
   * length, `total` the number of matches, and the page is the sorted matches
   * from `(page - 1) * limit` on.
   */
  lemma ListingShape(rx: Engine, records: seq<Staff>, p: ListParams)
    requires Listing(rx, records, p).Listed?
    ensures var r := Listing(rx, records, p);
      && r.count == |r.data| <= Abs(r.pagination.limit)
      && r.pagination.total == |Select(rx, p, records)|
      && r.pagination.page == PageNumber(p) && r.pagination.limit == PageSize(p)
      && (forall k :: 0 <= k < |r.data| ==> Selected(rx, p, r.data[k]) && r.data[k] in records)
      && NewestFirst(r.data)
      && StartIndex(r.pagination.page, r.pagination.limit) >= 0
      && r.data == Window(SortNewestFirst(Select(rx, p, records)),
                          StartIndex(r.pagination.page, r.pagination.limit), Abs(r.pagination.limit))
  {
    var matching := Select(rx, p, records);
    var sorted := SortNewestFirst(matching);
    var start := StartIndex(PageNumber(p), PageSize(p));
    var data := Window(sorted, start, Abs(PageSize(p)));
    WindowOfSorted(sorted, start, Abs(PageSize(p)));
    forall k | 0 <= k < |data|
      ensures Selected(rx, p, data[k]) && data[k] in records
    {
      assert data[k] in multiset(matching);
    }
  }

  /** A window of a newest-first list is itself newest first and made of its elements. */
  lemma WindowOfSorted(xs: seq<Staff>, start: nat, size: nat)
    requires NewestFirst(xs)
    ensures var w := Window(xs, start, size);
      |w| <= size && NewestFirst(w) && forall k :: 0 <= k < |w| ==> w[k] in multiset(xs)
  {
    var w := Window(xs, start, size);
    forall k | 0 <= k < |w|
      ensures w[k] in multiset(xs)
    {
      assert w[k] == xs[start + k];
    }
  }

  /**
   * The listing fails exactly when the search expression cannot be built or the skip
   * is negative; with an engine that reads literal patterns and a search without
   * metacharacters, only a negative skip makes it fail.
   */
  lemma ListingFailsIff(rx: Engine, records: seq<Staff>, p: ListParams)
    ensures Listing(rx, records, p).ListFailed? <==>
      SearchRefused(rx, p) || (PageNumber(p) - 1) * PageSize(p) < 0
    ensures ReadsLiterally(rx) && LiteralSearch(p) ==>
      (Listing(rx, records, p).ListFailed? <==> (PageNumber(p) - 1) * PageSize(p) < 0)
  {
  }

  /**
   * With a positive size, pages 1 to `pages` are non-empty, the last one holds the
   * remainder, and every page after it is empty.
   */
  lemma PageWindow(xs: seq<Staff>, page: int, limit: int)
    requires limit > 0 && page >= 1
    ensures var pages := CeilDiv(|xs|, limit);
      var w := Window(xs, (page - 1) * limit, limit);
      && (page <= pages ==> w != [])
      && (page < pages ==> |w| == limit)
      && (page == pages ==> |w| == |xs| - (pages - 1) * limit)
      && (page > pages ==> w == [])
  {
    var pages := CeilDiv(|xs|, limit);
    if page > pages {
      assert (page - 1) * limit >= pages * limit by {
        MulMonotone(pages, page - 1, limit);
      }
    } else if page < pages {
      assert page * limit <= (pages - 1) * limit by {
        MulMonotone(page, pages - 1, limit);
      }
    }
  }

  lemma MulMonotone(a: int, b: int, c: int)
    requires a <= b && c > 0
    ensures a * c <= b * c
  {
  }

  // ---------------------------------------------------------------------
  // The pages, taken together, are the sorted matches.
  // ---------------------------------------------------------------------

  /** The pages of size `limit` of a sorted list, first to last. */
  function Paginate(xs: seq<Staff>, limit: nat): (pages: seq<seq<Staff>>)
    requires limit > 0
    decreases |xs|
  {
    if xs == [] then []
    else if |xs| <= limit then [xs]
    else [xs[..limit]] + Paginate(xs[limit..], limit)
  }

  function Flatten(pages: seq<seq<Staff>>): seq<Staff> {
    if pages == [] then [] else pages[0] + Flatten(pages[1..])
  }

  /** There are `ceil(total / limit)` pages. */
  lemma {:induction false} PageCount(xs: seq<Staff>, limit: nat)
    requires limit > 0
    ensures |Paginate(xs, limit)| == CeilDiv(|xs|, limit)
    decreases |xs|
  {
    if xs == [] {
    } else if |xs| <= limit {
      CeilDivOne(|xs|, limit);
    } else {
      PageCount(xs[limit..], limit);
      CeilDivStep(|xs|, limit);
    }
  }

  /** Taken in order, the pages are the whole list. */
  lemma {:induction false} PagesConcatenate(xs: seq<Staff>, limit: nat)
    requires limit > 0
    ensures Flatten(Paginate(xs, limit)) == xs
    decreases |xs|
  {
    if xs == [] {
    } else if |xs| <= limit {
      assert Flatten([xs]) == xs + Flatten([]);
    } else {
      var rest := xs[limit..];
      PagesConcatenate(rest, limit);
      var ps := Paginate(xs, limit);
      assert ps[1..] == Paginate(rest, limit);
      assert xs[..limit] + rest == xs;
    }
  }

  /** Page `k + 1` is the window that starts `k * limit` records in. */
  lemma {:induction false} PageIsWindow(xs: seq<Staff>, limit: nat, k: nat)
    requires limit > 0 && k < |Paginate(xs, limit)|
    ensures Paginate(xs, limit)[k] == Window(xs, k * limit, limit)
    decreases |xs|
  {
    if |xs| > limit && k > 0 {
      var rest := xs[limit..];
      assert Paginate(xs, limit) == [xs[..limit]] + Paginate(rest, limit);
      PageIsWindow(rest, limit, k - 1);
      MulSucc(k - 1, limit);
      WindowShift(xs, limit, (k - 1) * limit, limit);
    }
  }

  /**
   * Requesting pages 1 to `ceil(total / limit)` returns every match exactly once and in
   * order: there are `pages` of them, page `k + 1` is the window starting at `k * limit`,
   * and together they are the whole list.
   */
  lemma PagesCoverAll(xs: seq<Staff>, limit: nat)
    requires limit > 0
    ensures |Paginate(xs, limit)| == CeilDiv(|xs|, limit)
    ensures Flatten(Paginate(xs, limit)) == xs
    ensures forall k :: 0 <= k < |Paginate(xs, limit)| ==> Paginate(xs, limit)[k] == Window(xs, k * limit, limit)
  {
    PageCount(xs, limit);
    PagesConcatenate(xs, limit);
    forall k | 0 <= k < |Paginate(xs, limit)| {
      PageIsWindow(xs, limit, k);
    }
  }

  /** A non-empty list no longer than a page fills one page. */
  lemma CeilDivOne(n: nat, limit: nat)
    requires 0 < n <= limit
    ensures CeilDiv(n, limit) == 1
  {
    var r := CeilDiv(n, limit);
    if r >= 2 {
      MulMonotone(1, r - 1, limit);
    } else if r <= 0 {
      MulMonotone(r, 0, limit);
    }
  }

  lemma MulSucc(a: nat, c: nat)
    ensures a * c + c == (a + 1) * c
  {
  }

  lemma CeilDivStep(n: nat, limit: nat)
    requires 0 < limit < n
    ensures CeilDiv(n, limit) == CeilDiv(n - limit, limit) + 1
  {
    var a := CeilDiv(n, limit);
    var b := CeilDiv(n - limit, limit);
    assert (b + 1 - 1) * limit < n <= (b + 1) * limit;
    if a > b + 1 {
      MulMonotone(b + 1, a - 1, limit);
    } else if a < b + 1 {
      MulMonotone(a, b, limit);
    }
  }

  /** A window of the list after its first `drop` records is a window of the list. */
  lemma WindowShift(xs: seq<Staff>, drop: nat, start: nat, size: nat)
    requires drop <= |xs|
    ensures Window(xs[drop..], start, size) == Window(xs, drop + start, size)
  {
  }

  /** A filter that sets no parameter selects the whole collection. */
  lemma NoFilterSelectsAll(rx: Engine, records: seq<Staff>, p: ListParams)
    requires !Truthy(p.search) && !Truthy(p.department) && !Truthy(p.status) && !Truthy(p.role)
    ensures Select(rx, p, records) == records
  {
    if records != [] {
      NoFilterSelectsAll(rx, records[1..], p);
      assert records == [records[0]] + records[1..];
    }
  }
}
