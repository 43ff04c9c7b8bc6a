/**
 * Offset pagination shared by the list routes: reading `page` and `limit`
 * from the query, the number of documents to skip, the page metadata, and
 * the response envelope `{ data, pagination }`.
 */
module Pagination {

  import opened Js

  datatype Options = Options(defaultLimit: int, maxLimit: int, defaultPage: int)

  /** The options every list route passes: `{ defaultLimit: 20, maxLimit: 100 }` and page 1. */
  const Defaults := Options(20, 100, 1)

  /** Options whose defaults and bound are positive. */
  predicate Sane(o: Options) {
    o.defaultPage >= 1 && o.defaultLimit >= 1 && o.maxLimit >= 1
  }

  datatype Params = Params(page: int, limit: int, skip: int)

  function Min(a: int, b: int): int { if a <= b then a else b }
  function Max(a: int, b: int): int { if a >= b then a else b }

  lemma MulMonotone(a: int, b: int, k: int)
    requires a <= b && k >= 0
    ensures a * k <= b * k
  {
  }

  /** Euclidean quotient and remainder are determined by `x == q * b + r`. */
  lemma DivModUnique(x: int, b: int, q: int, r: int)
    requires b >= 1 && x == q * b + r && 0 <= r < b
    ensures x / b == q && x % b == r
  {
    var q', r' := x / b, x % b;
    assert x == q' * b + r';
    if q > q' {
      MulMonotone(q' + 1, q, b);
    } else if q < q' {
      MulMonotone(q + 1, q', b);
    }
  }

  /**
   * `parsePagination(query, options)`. `pageArg` and `limitArg` are what
   * `parseInt` makes of the query parameters: None when the parameter is
   * missing or not a number.
   */
  method ParsePagination(pageArg: Option<int>, limitArg: Option<int>, opts: Options) returns (p: Params)
    ensures pageArg.Some? && pageArg.value >= 1 ==> p.page == pageArg.value
    ensures !(pageArg.Some? && pageArg.value >= 1) ==> p.page == opts.defaultPage
    ensures limitArg.Some? && limitArg.value >= 1 ==> p.limit == Min(limitArg.value, opts.maxLimit)
    ensures !(limitArg.Some? && limitArg.value >= 1) ==> p.limit == Min(opts.defaultLimit, opts.maxLimit)
    ensures p.skip == (p.page - 1) * p.limit
    ensures Sane(opts) ==> 1 <= p.page && 1 <= p.limit <= opts.maxLimit
    ensures Sane(opts) ==> 0 <= p.skip && p.skip % p.limit == 0 && p.skip / p.limit == p.page - 1
  {
    var page := opts.defaultPage;
    if pageArg.Some? {
      page := pageArg.value;
    }
    if pageArg.None? || page < 1 {
      page := opts.defaultPage;
    }

    var limit := opts.defaultLimit;
    if limitArg.Some? {
      limit := limitArg.value;
    }
    if limitArg.None? || limit < 1 {
      limit := opts.defaultLimit;
    }
    if limit > opts.maxLimit {
      limit := opts.maxLimit;
    }

    var skip := (page - 1) * limit;
    if Sane(opts) {
      MulMonotone(0, page - 1, limit);
      DivModUnique(skip, limit, page - 1, 0);
    }
    p := Params(page, limit, skip);
  }

  /** `Math.ceil(total / limit)` */
  function PageCount(total: nat, limit: int): (n: nat)
    requires limit >= 1
    ensures (n - 1) * limit < total <= n * limit
  {
    var q := (total + limit - 1) / limit;
    assert q * limit + (total + limit - 1) % limit == total + limit - 1;
    q
  }

  datatype Meta = Meta(
    page: int, limit: int, total: nat, totalPages: nat,
    hasNextPage: bool, hasPrevPage: bool,
    nextPage: Option<int>, prevPage: Option<int>)

  /** `createPaginationMeta(page, limit, total)` */
  function CreatePaginationMeta(page: int, limit: int, total: nat): (m: Meta)
    requires limit >= 1
    ensures m.page == page && m.limit == limit && m.total == total
    ensures (m.totalPages - 1) * limit < total <= m.totalPages * limit
    ensures m.hasNextPage <==> page < m.totalPages
    ensures m.nextPage == if m.hasNextPage then Some(page + 1) else None
    ensures m.hasPrevPage <==> page > 1
    ensures m.prevPage == if m.hasPrevPage then Some(page - 1) else None
  {
    var totalPages := PageCount(total, limit);
    Meta(page, limit, total, totalPages,
         page < totalPages, page > 1,
         if page < totalPages then Some(page + 1) else None,
         if page > 1 then Some(page - 1) else None)
  }

  /** `.skip(skip).limit(limit)` on a result list. */
  function Paginate<T>(items: seq<T>, skip: int, limit: int): (r: seq<T>)
    requires skip >= 0 && limit >= 0
    ensures |r| == Max(0, Min(limit, |items| - skip))
    ensures forall i :: 0 <= i < |r| ==> r[i] == items[skip + i]
  {
    if skip >= |items| then [] else items[skip..Min(skip + limit, |items|)]
  }

  datatype Paginated<T> = Paginated(data: seq<T>, pagination: Meta)

  /** `createPaginatedResponse(data, pagination)` */
  function CreatePaginatedResponse<T>(data: seq<T>, pagination: Meta): (r: Paginated<T>)
    ensures r.data == data && r.pagination == pagination
  {
    Paginated(data, pagination)
  }

  /** The list page for `p` over all matching documents, as the list routes respond. */
  function ListPage<T>(items: seq<T>, p: Params): Paginated<T>
    requires p.skip >= 0 && p.limit >= 1
  {
    CreatePaginatedResponse(Paginate(items, p.skip, p.limit), CreatePaginationMeta(p.page, p.limit, |items|))
  }

  /** A page holds documents exactly when its number is at most `totalPages`. */
  lemma PageNonEmpty<T>(items: seq<T>, p: Params)
    requires p.page >= 1 && p.limit >= 1 && p.skip == (p.page - 1) * p.limit
    ensures var r := ListPage(items, p);
      |r.data| > 0 <==> p.page <= r.pagination.totalPages
  {
    var n := PageCount(|items|, p.limit);
    if p.page - 1 >= n {
      MulMonotone(n, p.page - 1, p.limit);
    } else {
      MulMonotone(p.page - 1, n - 1, p.limit);
    }
  }

  /** `hasNextPage` says that documents remain after this page. */
  lemma NextPageMeansMoreItems<T>(items: seq<T>, p: Params)
    requires p.page >= 1 && p.limit >= 1 && p.skip == (p.page - 1) * p.limit
    ensures var r := ListPage(items, p);
      r.pagination.hasNextPage <==> p.skip + |r.data| < |items|
  {
    var n := PageCount(|items|, p.limit);
    if p.page < n {
      MulMonotone(p.page, n - 1, p.limit);
    } else {
      MulMonotone(n, p.page, p.limit);
    }
  }
}
