/**
 * The client's `getStaff(page, limit, filters)`: the request URL is the API
 * base, `?page=…&limit=…`, then `&search=…`, `&department=…`, `&status=…` and
 * `&role=…` for each filter that is set, concatenated without any encoding.
 * The server reads the query string back by splitting it at `&` and each
 * piece at its first `=`.
 */
module StaffService {
  import opened Base
  import opened Text
  import opened StaffQuery

  const ApiUrl := "http://localhost:5000/api/staff"
  const DefaultPage := 1
  const DefaultLimit := 10

  /** The `filters` argument; a key may be absent. */
  datatype Filters = Filters(
    search: Option<string>,
    department: Option<string>,
    status: Option<string>,
    role: Option<string>)

  /** One `key=value` piece of a query string. */
  datatype Pair = Pair(key: string, value: string)

  function Render(p: Pair): string {
    p.key + "=" + p.value
  }

  /** The pieces joined with `&`, first to last. */
  function Join(ps: seq<Pair>): string
    requires ps != []
  {
    if |ps| == 1 then Render(ps[0]) else Join(ps[..|ps| - 1]) + "&" + Render(ps[|ps| - 1])
  }

  /** The piece a filter contributes: one pair when the value is truthy, nothing otherwise. */
  function Optional(key: string, o: Option<string>): seq<Pair> {
    if Truthy(o) then [Pair(key, o.value)] else []
  }

  /** The pieces of the URL, in the order the client appends them. */
  function QueryPairs(page: int, limit: int, f: Filters): (ps: seq<Pair>)
    ensures |ps| >= 2 && ps[0] == Pair("page", IntToString(page)) && ps[1] == Pair("limit", IntToString(limit))
  {
    [Pair("page", IntToString(page)), Pair("limit", IntToString(limit))]
      + Optional("search", f.search)
      + Optional("department", f.department)
      + Optional("status", f.status)
      + Optional("role", f.role)
  }

  /** A default parameter replaces only an argument that is left out. */
  function ArgOr(x: Option<int>, fallback: int): int {
    if x.Some? then x.value else fallback
  }

  /** The URL is built by successive appends to one variable, as the client does. */
  method GetStaffUrl(page: Option<int>, limit: Option<int>, f: Filters) returns (url: string)
    ensures url == ApiUrl + "?" + Join(QueryPairs(ArgOr(page, DefaultPage), ArgOr(limit, DefaultLimit), f))
  {
    var p := ArgOr(page, DefaultPage);
    var l := ArgOr(limit, DefaultLimit);
    url := ApiUrl + "?page=" + IntToString(p) + "&limit=" + IntToString(l);
    ghost var ps := [Pair("page", IntToString(p)), Pair("limit", IntToString(l))];
    FirstPieces(p, l);
    ghost var before := url;
    if Truthy(f.search) {
      url := url + "&search=" + f.search.value;
    }
    AppendStep(before, url, ps, "search", "&search=", f.search);
    ps, before := ps + Optional("search", f.search), url;
    if Truthy(f.department) {
      url := url + "&department=" + f.department.value;
    }
    AppendStep(before, url, ps, "department", "&department=", f.department);
    ps, before := ps + Optional("department", f.department), url;
    if Truthy(f.status) {
      url := url + "&status=" + f.status.value;
    }
    AppendStep(before, url, ps, "status", "&status=", f.status);
    ps, before := ps + Optional("status", f.status), url;
    if Truthy(f.role) {
      url := url + "&role=" + f.role.value;
    }
    AppendStep(before, url, ps, "role", "&role=", f.role);
  }

  lemma FirstPieces(p: int, l: int)
    ensures ApiUrl + "?page=" + IntToString(p) + "&limit=" + IntToString(l)
      == ApiUrl + "?" + Join([Pair("page", IntToString(p)), Pair("limit", IntToString(l))])
  {
    var ps := [Pair("page", IntToString(p)), Pair("limit", IntToString(l))];
    assert ps[..1] == [ps[0]];
    assert Join(ps) == "page=" + IntToString(p) + "&" + "limit=" + IntToString(l);
  }

  /** One conditional append: the URL grows by `&key=value` exactly when the filter is truthy. */
  lemma AppendStep(before: string, after: string, ps: seq<Pair>, key: string, sep: string, o: Option<string>)
    requires ps != [] && before == ApiUrl + "?" + Join(ps) && sep == "&" + key + "="
    requires after == if Truthy(o) then before + sep + o.value else before
    ensures after == ApiUrl + "?" + Join(ps + Optional(key, o))
  {
    if Truthy(o) {
      JoinSnoc(ps, Pair(key, o.value));
      AppendAssoc(ApiUrl + "?", Join(ps), key, o.value);
    } else {
      assert ps + Optional(key, o) == ps;
    }
  }

  lemma JoinSnoc(ps: seq<Pair>, p: Pair)
    requires ps != []
    ensures Join(ps + [p]) == Join(ps) + "&" + Render(p)
  {
    var qs := ps + [p];
    assert qs[..|qs| - 1] == ps;
  }

  lemma AppendAssoc(base: string, joined: string, key: string, v: string)
    ensures base + (joined + "&" + (key + "=" + v)) == base + joined + ("&" + key + "=") + v
  {
  }

  // ---------------------------------------------------------------------
  // How the server reads the query string back.
  // ---------------------------------------------------------------------

  function FirstIndexOf(s: string, c: char): (i: int)
    ensures -1 <= i < |s|
    ensures i >= 0 ==> s[i] == c && c !in s[..i]
    ensures i < 0 ==> c !in s
  {
    if s == [] then -1
    else if s[0] == c then 0
    else
      var j := FirstIndexOf(s[1..], c);
      assert j >= 0 ==> s[..j + 1] == [s[0]] + s[1..][..j];
      if j < 0 then -1 else j + 1
  }

  function LastIndexOf(s: string, c: char): (i: int)
    ensures -1 <= i < |s|
    ensures i >= 0 ==> s[i] == c && c !in s[i + 1..]
    ensures i < 0 ==> c !in s
  {
    if s == [] then -1
    else if s[|s| - 1] == c then |s| - 1
    else
      var j := LastIndexOf(s[..|s| - 1], c);
      assert j >= 0 ==> s[j + 1..] == s[..|s| - 1][j + 1..] + [s[|s| - 1]];
      assert s == s[..|s| - 1] + [s[|s| - 1]];
      j
  }

  /** `s.split(c)`. */
  function SplitOn(s: string, c: char): seq<string>
    decreases |s|
  {
    var i := LastIndexOf(s, c);
    if i < 0 then [s] else SplitOn(s[..i], c) + [s[i + 1..]]
  }

  /** A piece up to its first `=` is the key, the rest the value; a piece without `=` has the empty value. */
  function ParsePair(piece: string): Pair {
    var i := FirstIndexOf(piece, '=');
    if i < 0 then Pair(piece, "") else Pair(piece[..i], piece[i + 1..])
  }

  function ParsePairs(pieces: seq<string>): (ps: seq<Pair>)
    ensures |ps| == |pieces| && forall k :: 0 <= k < |pieces| ==> ps[k] == ParsePair(pieces[k])
  {
    seq(|pieces|, k requires 0 <= k < |pieces| => ParsePair(pieces[k]))
  }

  /** The value of the first piece with the key. */
  function Lookup(ps: seq<Pair>, key: string): Option<string> {
    if ps == [] then None
    else if ps[0].key == key then Some(ps[0].value)
    else Lookup(ps[1..], key)
  }

  /** The part after the first `?`. */
  function QueryOf(url: string): string {
    var i := FirstIndexOf(url, '?');
    if i < 0 then "" else url[i + 1..]
  }

  /** `req.query` for the listing: each key read from the query string, absent when it is not there. */
  function ReadParams(query: string): ListParams {
    var ps := ParsePairs(SplitOn(query, '&'));
    ListParams(
      Lookup(ps, "page"), Lookup(ps, "limit"), Lookup(ps, "search"),
      Lookup(ps, "department"), Lookup(ps, "status"), Lookup(ps, "role"))
  }

  /**
   * A value the server reads back as written: no `&` (which would end the piece),
   * no `#` (which would end the query), no `%` or `+` (which the server decodes),
   * no `]` (the query parser splits a piece at `]=` before its first `=`) and no
   * white space.
   */
  predicate UrlSafe(v: string) {
    forall i :: 0 <= i < |v| ==>
      v[i] != '&' && v[i] != '#' && v[i] != '%' && v[i] != '+' && v[i] != ']' && !IsSpace(v[i])
  }

  predicate SafeFilter(o: Option<string>) {
    Truthy(o) ==> UrlSafe(o.value)
  }

  /** What arrives for a filter: its value when truthy, nothing otherwise. */
  function Sent(o: Option<string>): (r: Option<string>)
    ensures Truthy(r) <==> Truthy(o)
    ensures Truthy(r) ==> r.value == o.value
  {
    if Truthy(o) then o else None
  }

  // ---------------------------------------------------------------------
  // Round trip.
  // ---------------------------------------------------------------------

  lemma {:induction false} LastIndexOfJoin(x: string, c: char, y: string)
    requires c !in y
    ensures LastIndexOf(x + [c] + y, c) == |x|
    decreases |y|
  {
    var s := x + [c] + y;
    if y != [] {
      var y0 := y[..|y| - 1];
      assert s[..|s| - 1] == x + [c] + y0;
      assert s[|s| - 1] == y[|y| - 1];
      LastIndexOfJoin(x, c, y0);
    }
  }

  lemma {:induction false} FirstIndexOfJoin(x: string, c: char, y: string)
    requires c !in x
    ensures FirstIndexOf(x + [c] + y, c) == |x|
    decreases |x|
  {
    var s := x + [c] + y;
    if x != [] {
      assert s[1..] == x[1..] + [c] + y;
      assert s[0] == x[0];
      FirstIndexOfJoin(x[1..], c, y);
    }
  }

  lemma RenderAmpFree(p: Pair)
    requires AmpFree(p)
    ensures '&' !in Render(p)
  {
    var r := Render(p);
    forall m | 0 <= m < |r| ensures r[m] != '&' {
      if m < |p.key| {
        assert r[m] == p.key[m];
      } else if m > |p.key| {
        assert r[m] == p.value[m - |p.key| - 1];
      }
    }
  }

  lemma SplitSnoc(x: string, c: char, y: string)
    requires c !in y
    ensures SplitOn(x + [c] + y, c) == SplitOn(x, c) + [y]
  {
    var s := x + [c] + y;
    LastIndexOfJoin(x, c, y);
    assert s[..|x|] == x && s[|x| + 1..] == y;
  }

  predicate AmpFree(p: Pair) {
    '&' !in p.key && '&' !in p.value
  }

  /** Joining pieces free of `&` and splitting at `&` gives the pieces back. */
  lemma {:induction false} SplitJoin(ps: seq<Pair>)
    requires ps != [] && forall k :: 0 <= k < |ps| ==> AmpFree(ps[k])
    ensures SplitOn(Join(ps), '&') == seq(|ps|, k requires 0 <= k < |ps| => Render(ps[k]))
    decreases |ps|
  {
    var last := Render(ps[|ps| - 1]);
    RenderAmpFree(ps[|ps| - 1]);
    if |ps| == 1 {
      assert LastIndexOf(last, '&') < 0;
    } else {
      var init := ps[..|ps| - 1];
      SplitJoin(init);
      assert Join(ps) == Join(init) + ['&'] + last;
      SplitSnoc(Join(init), '&', last);
    }
  }

  lemma ParseRender(p: Pair)
    requires '=' !in p.key
    ensures ParsePair(Render(p)) == p
  {
    var s := Render(p);
    FirstIndexOfJoin(p.key, '=', p.value);
    assert s[..|p.key|] == p.key && s[|p.key| + 1..] == p.value;
  }

  /** The query string starts after the `?` that ends the base URL. */
  lemma QueryOfUrl(query: string)
    ensures QueryOf(ApiUrl + "?" + query) == query
  {
    var url := ApiUrl + "?" + query;
    assert '?' !in ApiUrl;
    FirstIndexOfJoin(ApiUrl, '?', query);
    assert url[|ApiUrl| + 1..] == query;
  }

  /** Lookup in a concatenation: the left part wins. */
  lemma {:induction false} LookupAppend(a: seq<Pair>, b: seq<Pair>, key: string)
    ensures Lookup(a + b, key) == if Lookup(a, key).Some? then Lookup(a, key) else Lookup(b, key)
    decreases |a|
  {
    if a != [] {
      assert (a + b)[0] == a[0] && (a + b)[1..] == a[1..] + b;
      LookupAppend(a[1..], b, key);
    } else {
      assert a + b == b;
    }
  }

  lemma LookupOptional(key: string, o: Option<string>, k: string)
    ensures Lookup(Optional(key, o), k) == if k == key then Sent(o) else None
  {
  }

  /** Lookup in the five parts of the query pieces, in order. */
  lemma LookupParts(p0: seq<Pair>, s: seq<Pair>, d: seq<Pair>, st: seq<Pair>, r: seq<Pair>, k: string)
    ensures Lookup(p0 + s + d + st + r, k) ==
      if Lookup(p0, k).Some? then Lookup(p0, k)
      else if Lookup(s, k).Some? then Lookup(s, k)
      else if Lookup(d, k).Some? then Lookup(d, k)
      else if Lookup(st, k).Some? then Lookup(st, k)
      else Lookup(r, k)
  {
    LookupAppend(p0 + s + d + st, r, k);
    LookupAppend(p0 + s + d, st, k);
    LookupAppend(p0 + s, d, k);
    LookupAppend(p0, s, k);
  }

  /** Each key of the listing is read back as the client wrote it. */
  lemma LookupQueryPairs(page: int, limit: int, f: Filters, k: string)
    ensures Lookup(QueryPairs(page, limit, f), k) ==
      if k == "page" then Some(IntToString(page))
      else if k == "limit" then Some(IntToString(limit))
      else if k == "search" then Sent(f.search)
      else if k == "department" then Sent(f.department)
      else if k == "status" then Sent(f.status)
      else if k == "role" then Sent(f.role)
      else None
  {
    var p0 := [Pair("page", IntToString(page)), Pair("limit", IntToString(limit))];
    var s := Optional("search", f.search);
    var d := Optional("department", f.department);
    var st := Optional("status", f.status);
    var r := Optional("role", f.role);
    assert QueryPairs(page, limit, f) == p0 + s + d + st + r;
    LookupParts(p0, s, d, st, r, k);
    assert Lookup(p0, k) ==
      if k == "page" then Some(IntToString(page))
      else if k == "limit" then Some(IntToString(limit))
      else None
    by {
      assert p0[1..] == [p0[1]] && p0[1..][1..] == [];
      assert Lookup(p0[1..], k) == if k == "limit" then Some(IntToString(limit)) else None;
    }
    LookupOptional("search", f.search, k);
    LookupOptional("department", f.department, k);
    LookupOptional("status", f.status, k);
    LookupOptional("role", f.role, k);
  }

  /** The query string read back from the pieces the client wrote. */
  lemma ReadQueryPairs(page: int, limit: int, f: Filters)
    ensures var ps := QueryPairs(page, limit, f);
      ListParams(
        Lookup(ps, "page"), Lookup(ps, "limit"), Lookup(ps, "search"),
        Lookup(ps, "department"), Lookup(ps, "status"), Lookup(ps, "role"))
      == ListParams(Some(IntToString(page)), Some(IntToString(limit)),
           Sent(f.search), Sent(f.department), Sent(f.status), Sent(f.role))
  {
    LookupQueryPairs(page, limit, f, "page");
    LookupQueryPairs(page, limit, f, "limit");
    LookupQueryPairs(page, limit, f, "search");
    LookupQueryPairs(page, limit, f, "department");
    LookupQueryPairs(page, limit, f, "status");
    LookupQueryPairs(page, limit, f, "role");
  }

  /**
   * With page and limit as given (or defaulted) and every set filter free of the
   * characters the query syntax gives a meaning to, the server reads back exactly
   * the page, the limit and the truthy filters the client sent.
   */
  lemma ServerReadsUrl(page: Option<int>, limit: Option<int>, f: Filters)
    requires SafeFilter(f.search) && SafeFilter(f.department) && SafeFilter(f.status) && SafeFilter(f.role)
    ensures var url := ApiUrl + "?" + Join(QueryPairs(ArgOr(page, DefaultPage), ArgOr(limit, DefaultLimit), f));
      ReadParams(QueryOf(url)) == ListParams(
        Some(IntToString(ArgOr(page, DefaultPage))), Some(IntToString(ArgOr(limit, DefaultLimit))),
        Sent(f.search), Sent(f.department), Sent(f.status), Sent(f.role))
  {
    var p, l := ArgOr(page, DefaultPage), ArgOr(limit, DefaultLimit);
    var ps := QueryPairs(p, l, f);
    var query := Join(ps);
    QueryOfUrl(query);
    QueryPairsSafe(p, l, f);
    ParseJoin(ps);
    assert ReadParams(query) == ListParams(
      Lookup(ps, "page"), Lookup(ps, "limit"), Lookup(ps, "search"),
      Lookup(ps, "department"), Lookup(ps, "status"), Lookup(ps, "role"));
    ReadQueryPairs(p, l, f);
  }

  /** Pieces the parser reads back: no `&` anywhere, no `=` in a key. */
  predicate SafePairs(ps: seq<Pair>) {
    forall k :: 0 <= k < |ps| ==> AmpFree(ps[k]) && '=' !in ps[k].key
  }

  /** Splitting the joined safe pieces at `&` and each at its first `=` gives the pieces back. */
  lemma ParseJoin(ps: seq<Pair>)
    requires ps != [] && SafePairs(ps)
    ensures ParsePairs(SplitOn(Join(ps), '&')) == ps
  {
    SplitJoin(ps);
    var parsed := ParsePairs(SplitOn(Join(ps), '&'));
    forall k | 0 <= k < |ps| ensures parsed[k] == ps[k] {
      ParseRender(ps[k]);
    }
  }

  lemma SafePairsAppend(a: seq<Pair>, b: seq<Pair>)
    requires SafePairs(a) && SafePairs(b)
    ensures SafePairs(a + b)
  {
    forall k | 0 <= k < |a + b| ensures AmpFree((a + b)[k]) && '=' !in (a + b)[k].key {
      if k >= |a| {
        assert (a + b)[k] == b[k - |a|];
      }
    }
  }

  lemma SafeOptional(key: string, o: Option<string>)
    requires SafeFilter(o) && '&' !in key && '=' !in key
    ensures SafePairs(Optional(key, o))
  {
    if Truthy(o) {
      forall m | 0 <= m < |o.value| ensures o.value[m] != '&' {
      }
    }
  }

  /** With every set filter safe, all the pieces the client writes are safe. */
  lemma QueryPairsSafe(page: int, limit: int, f: Filters)
    requires SafeFilter(f.search) && SafeFilter(f.department) && SafeFilter(f.status) && SafeFilter(f.role)
    ensures SafePairs(QueryPairs(page, limit, f))
  {
    var p0 := [Pair("page", IntToString(page)), Pair("limit", IntToString(limit))];
    IntNoAmp(page);
    IntNoAmp(limit);
    assert SafePairs(p0);
    var s, d, st, r := Optional("search", f.search), Optional("department", f.department),
      Optional("status", f.status), Optional("role", f.role);
    SafeOptional("search", f.search);
    SafeOptional("department", f.department);
    SafeOptional("status", f.status);
    SafeOptional("role", f.role);
    SafePairsAppend(p0, s);
    SafePairsAppend(p0 + s, d);
    SafePairsAppend(p0 + s + d, st);
    SafePairsAppend(p0 + s + d + st, r);
    assert QueryPairs(page, limit, f) == p0 + s + d + st + r;
  }

  lemma IntNoAmp(i: int)
    ensures '&' !in IntToString(i)
  {
    var s := IntToString(i);
    forall m | 0 <= m < |s| ensures s[m] != '&' {
      if i < 0 {
        assert s == ['-'] + NatToString(-i);
        if m > 0 {
          assert s[m] == NatToString(-i)[m - 1];
        }
      } else {
        assert s == NatToString(i);
      }
    }
  }

  /**
   * The server's page and limit after `parseInt(…, 10) || default`: what the client
   * sent, except that zero falls back to the default, and a filter is set on the
   * server iff it was truthy on the client, with the same value.
   */
  lemma ListingSeesRequest(rx: Engine, page: Option<int>, limit: Option<int>, f: Filters, s: StaffSchema.Staff)
    requires SafeFilter(f.search) && SafeFilter(f.department) && SafeFilter(f.status) && SafeFilter(f.role)
    ensures var url := ApiUrl + "?" + Join(QueryPairs(ArgOr(page, DefaultPage), ArgOr(limit, DefaultLimit), f));
      var q := ReadParams(QueryOf(url));
      && PageNumber(q) == (if ArgOr(page, DefaultPage) == 0 then 1 else ArgOr(page, DefaultPage))
      && PageSize(q) == (if ArgOr(limit, DefaultLimit) == 0 then 10 else ArgOr(limit, DefaultLimit))
      && (Selected(rx, q, s) <==> Selected(rx, ListParams(None, None, f.search, f.department, f.status, f.role), s))
  {
    var p, l := ArgOr(page, DefaultPage), ArgOr(limit, DefaultLimit);
    var q := ReadParams(QueryOf(ApiUrl + "?" + Join(QueryPairs(p, l, f))));
    ServerReadsUrl(page, limit, f);
    assert q.page == Some(IntToString(p)) && q.limit == Some(IntToString(l));
    IntRoundTrip(p);
    IntRoundTrip(l);
    SentSelects(rx, q, ListParams(None, None, f.search, f.department, f.status, f.role), s);
  }

  /** Only the truthiness and value of a filter matter to the selection. */
  lemma SentSelects(rx: Engine, q: ListParams, p: ListParams, s: StaffSchema.Staff)
    requires q.search == Sent(p.search) && q.department == Sent(p.department)
    requires q.status == Sent(p.status) && q.role == Sent(p.role)
    ensures Selected(rx, q, s) <==> Selected(rx, p, s)
  {
  }

  /**
   * Values are not encoded: a search `x&y` arrives as the search `x`, and `y`
   * becomes a piece of its own (searching for `R&D` searches for `R`).
   */
  lemma AmpersandCutsSearch(page: int, limit: int, x: string, y: string)
    requires '&' !in x && '&' !in y
    ensures var url := ApiUrl + "?" + Join(QueryPairs(page, limit, Filters(Some(x + "&" + y), None, None, None)));
      ReadParams(QueryOf(url)).search == Some(x)
  {
    var cut := [Pair("page", IntToString(page)), Pair("limit", IntToString(limit)), Pair("search", x)];
    var query := Join(QueryPairs(page, limit, Filters(Some(x + "&" + y), None, None, None)));
    CutQuery(page, limit, x, y);
    QueryOfUrl(query);
    IntNoAmp(page);
    IntNoAmp(limit);
    CutPieces(cut, y);
    var parsed := ParsePairs(SplitOn(query, '&'));
    LookupAppend(cut, [ParsePair(y)], "search");
    assert cut[1..] == [cut[1], cut[2]] && cut[1..][1..] == [cut[2]];
    assert Lookup(cut[1..][1..], "search") == Some(x);
    assert Lookup(cut[1..], "search") == Some(x);
    assert Lookup(cut, "search") == Some(x);
  }

  lemma CutQuery(page: int, limit: int, x: string, y: string)
    ensures var cut := [Pair("page", IntToString(page)), Pair("limit", IntToString(limit)), Pair("search", x)];
      Join(QueryPairs(page, limit, Filters(Some(x + "&" + y), None, None, None))) == Join(cut) + ['&'] + y
  {
    var head := [Pair("page", IntToString(page)), Pair("limit", IntToString(limit))];
    var ps := QueryPairs(page, limit, Filters(Some(x + "&" + y), None, None, None));
    assert ps == head + [Pair("search", x + "&" + y)];
    JoinSnoc(head, Pair("search", x + "&" + y));
    JoinSnoc(head, Pair("search", x));
    var cut := [Pair("page", IntToString(page)), Pair("limit", IntToString(limit)), Pair("search", x)];
    assert head + [Pair("search", x)] == cut;
    assert Render(Pair("search", x + "&" + y)) == Render(Pair("search", x)) + ['&'] + y;
  }

  /** Splitting pieces followed by one more `&`-free tail. */
  lemma CutPieces(cut: seq<Pair>, y: string)
    requires cut != [] && '&' !in y
    requires SafePairs(cut)
    ensures ParsePairs(SplitOn(Join(cut) + ['&'] + y, '&')) == cut + [ParsePair(y)]
  {
    SplitSnoc(Join(cut), '&', y);
    SplitJoin(cut);
    var parsed := ParsePairs(SplitOn(Join(cut) + ['&'] + y, '&'));
    forall k | 0 <= k < |cut| ensures parsed[k] == cut[k] {
      ParseRender(cut[k]);
    }
  }
}
