/** The pagination arithmetic the admin list routes repeat
    (app/api/admin/products/route.ts, app/api/admin/team-stores/route.ts,
    app/api/team-store-inquiries/route.ts): `page` and `limit` parsed from the
    query string with defaults 1 and 10, `skip = (page - 1) * limit`, and
    `totalPages = Math.ceil(total / limit)`. A number that is NaN is `None`. */
module Pagination {
  import opened Common
  import opened Numbers

  const DefaultPage := "1"
  const DefaultLimit := "10"

  /** `searchParams.get(key) || fallback`: a missing or empty parameter gives the fallback. */
  function Param(query: map<string, string>, key: string, fallback: string): (v: string)
    ensures key in query && query[key] != "" ==> v == query[key]
    ensures key !in query || query[key] == "" ==> v == fallback
  {
    if key in query && query[key] != "" then query[key] else fallback
  }

  /** `parseInt(searchParams.get('page') || '1')` */
  function PageParam(query: map<string, string>): Option<int> {
    ParseInt(Param(query, "page", DefaultPage))
  }

  /** `parseInt(searchParams.get('limit') || '10')` */
  function LimitParam(query: map<string, string>): Option<int> {
    ParseInt(Param(query, "limit", DefaultLimit))
  }

  /** Without parameters the first page of ten is asked for, and a parameter
      written as a decimal number is read as that number. */
  lemma ParamsDefaultAndParse(query: map<string, string>, page: nat, limit: nat)
    ensures "page" !in query ==> PageParam(query) == Some(1)
    ensures "limit" !in query ==> LimitParam(query) == Some(10)
    ensures "page" in query && query["page"] == NatToDecimal(page) ==> PageParam(query) == Some(page)
    ensures "limit" in query && query["limit"] == NatToDecimal(limit) ==> LimitParam(query) == Some(limit)
  {
    DefaultsParse();
    ParseDecimal(page);
    ParseDecimal(limit);
  }

  lemma DefaultsParse()
    ensures ParseInt(DefaultPage) == Some(1) && ParseInt(DefaultLimit) == Some(10)
  {
    var one := NatToDecimal(1);
    assert one == [(1 + '0' as int) as char];
    assert one == DefaultPage;
    ParseDecimal(1);
    var ten := NatToDecimal(10);
    assert ten == one + [(0 + '0' as int) as char];
    assert ten == DefaultLimit;
    ParseDecimal(10);
  }

  /** The page a list request asks for: its `skip` and `take` and the `page`
      and `limit` it echoes back. */
  datatype PageRequest = PageRequest(page: Option<int>, limit: Option<int>, skip: Option<int>)

  /** The page request read from the query string. */
  function PageRequestOf(query: map<string, string>): (p: PageRequest)
    ensures p.page == PageParam(query) && p.limit == LimitParam(query)
    ensures p.skip == Skip(p.page, p.limit)
  {
    PageRequest(PageParam(query), LimitParam(query), Skip(PageParam(query), LimitParam(query)))
  }

  /** Without parameters, the first ten rows are asked for. */
  lemma FirstPageByDefault(query: map<string, string>)
    requires "page" !in query && "limit" !in query
    ensures PageRequestOf(query) == PageRequest(Some(1), Some(10), Some(0))
  {
    ParamsDefaultAndParse(query, 0, 0);
  }

  /** `(page - 1) * limit`; NaN in, NaN out. */
  function Skip(page: Option<int>, limit: Option<int>): (r: Option<int>)
    ensures r.Some? <==> page.Some? && limit.Some?
    ensures page == Some(1) && limit.Some? ==> r == Some(0)
  {
    if page.Some? && limit.Some? then Some((page.value - 1) * limit.value) else None
  }

  /** The offset of a page is a non-negative multiple of the limit, and the
      next page starts one limit further on. */
  lemma SkipIsPageOffset(page: int, limit: int)
    requires page >= 1 && limit >= 0
    ensures Skip(Some(page), Some(limit)).value >= 0
    ensures limit > 0 ==> Skip(Some(page), Some(limit)).value % limit == 0
    ensures Skip(Some(page + 1), Some(limit)).value == Skip(Some(page), Some(limit)).value + limit
  {
    var k := page - 1;
    assert k * limit >= 0;
    if limit > 0 {
      assert (k * limit) % limit == 0 by {
        assert k * limit == limit * k + 0;
      }
    }
    assert (k + 1) * limit == k * limit + limit;
  }

  /** `Math.ceil(total / limit)` as JSON: `None` (null) when the limit is NaN
      or 0, since the quotient is then NaN or Infinity. */
  function TotalPages(total: nat, limit: Option<int>): (r: Option<int>)
    ensures r.Some? <==> limit.Some? && limit.value != 0
  {
    if limit.Some? && limit.value != 0 then Some(CeilDiv(total, limit.value)) else None
  }

  /** For a positive limit, the page count is the least number of pages that
      holds every row: enough pages, no empty last page, and none for no rows. */
  lemma TotalPagesIsLeast(total: nat, limit: int)
    requires limit > 0
    ensures TotalPages(total, Some(limit)).Some?
    ensures var n := TotalPages(total, Some(limit)).value;
            && n * limit >= total
            && (total > 0 ==> (n - 1) * limit < total)
            && (total == 0 ==> n == 0)
            && n >= 0
  {
    var n := TotalPages(total, Some(limit)).value;
    assert (n - 1) * limit < total <= n * limit;
    assert n < 0 ==> n * limit < 0;
    assert n > 0 ==> (n - 1) * limit >= 0;
  }

  // ---------------------------------------------------------------------------
  // What the arithmetic means for a list of rows

  /** The rows a query with `skip` and `take` returns, for non-negative values. */
  function Window<T>(rows: seq<T>, skip: nat, take: nat): (w: seq<T>)
    ensures |w| <= take
    ensures skip <= |rows| ==> w == rows[skip..if skip + take <= |rows| then skip + take else |rows|]
    ensures skip > |rows| ==> w == []
  {
    if skip > |rows| then [] else rows[skip..if skip + take <= |rows| then skip + take else |rows|]
  }

  /** Pages 1 to `k`, one after the other. */
  function FirstPages<T>(rows: seq<T>, limit: nat, k: nat): seq<T> {
    if k == 0 then [] else FirstPages(rows, limit, k - 1) + Window(rows, (k - 1) * limit, limit)
  }

  /** The rows before `m`, followed by the window at `m`, are the rows before
      `m + take` (all positions clamped to the length). */
  lemma WindowExtends<T>(rows: seq<T>, m: nat, take: nat)
    ensures var lo := if m <= |rows| then m else |rows|;
            var hi := if m + take <= |rows| then m + take else |rows|;
            rows[..lo] + Window(rows, m, take) == rows[..hi]
  {
    var lo := if m <= |rows| then m else |rows|;
    var hi := if m + take <= |rows| then m + take else |rows|;
    if m <= |rows| {
      assert rows[..lo] + rows[lo..hi] == rows[..hi];
    } else {
      assert rows[..lo] + [] == rows[..hi];
    }
  }

  lemma {:induction false} FirstPagesPrefix<T>(rows: seq<T>, limit: nat, k: nat)
    ensures FirstPages(rows, limit, k) == rows[..if k * limit <= |rows| then k * limit else |rows|]
  {
    if k > 0 {
      FirstPagesPrefix(rows, limit, k - 1);
      var m := (k - 1) * limit;
      assert k * limit == m + limit;
      WindowExtends(rows, m, limit);
    }
  }

  /** Reading the pages 1 to `totalPages` with `skip = (page - 1) * limit` and
      `take = limit` returns every row once, in order. */
  lemma PagesCoverAll<T>(rows: seq<T>, limit: int)
    requires limit > 0
    ensures TotalPages(|rows|, Some(limit)).Some?
    ensures FirstPages(rows, limit, TotalPages(|rows|, Some(limit)).value as nat) == rows
  {
    TotalPagesIsLeast(|rows|, limit);
    var n := TotalPages(|rows|, Some(limit)).value;
    FirstPagesPrefix(rows, limit, n as nat);
    assert rows[..|rows|] == rows;
  }

  /** Row `i` is on page `i / limit + 1`, which is one of the pages reported. */
  lemma RowOnPage(total: nat, limit: int, i: nat)
    requires limit > 0 && i < total
    ensures var page := i / limit + 1;
            && 1 <= page <= TotalPages(total, Some(limit)).value
            && Skip(Some(page), Some(limit)).value <= i < Skip(Some(page), Some(limit)).value + limit
  {
    TotalPagesIsLeast(total, limit);
    var n := TotalPages(total, Some(limit)).value;
    var q := i / limit;
    assert i == limit * q + i % limit;
    assert n <= q ==> n * limit <= q * limit;
  }
}
