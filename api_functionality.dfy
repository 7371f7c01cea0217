/**
 * The query planner of the product listing (src/utils/apiFunctionality.js):
 * an object that turns the request's query parameters into a filter object
 * for counting and a Mongoose query with `find`, `limit` and `skip` applied.
 */
module QueryPlanner {
  import opened Wrappers
  import opened JsBuiltins

  /** `req.query`: parameter name to its (string) value. */
  type Params = map<string, string>

  /** A filter condition: a parameter value copied verbatim, or the keyword's `$regex` condition (kept opaque). */
  datatype Value = Text(text: string) | Regex(pattern: string, options: string)

  type Filter = map<string, Value>

  /** The Mongoose query, as the last `find`, `limit` and `skip` applied to it. */
  datatype MongoQuery = MongoQuery(conditions: Option<Filter>, limitN: Option<int>, skipN: Option<int>)
  {
    function Find(f: Filter): MongoQuery { this.(conditions := Some(f)) }
    function Limit(n: int): MongoQuery { this.(limitN := Some(n)) }
    function Skip(n: int): MongoQuery { this.(skipN := Some(n)) }
  }

  /** The parameters `filter` never copies. */
  const RemoveFields: seq<string> := ["keyword", "page", "limit"]

  const DefaultPage := 1
  const DefaultLimit := 10

  // ---------------------------------------------------------------------------
  // search and filter, as functions of the filter object

  /** The filter object after `search`. */
  function WithKeyword(f: Filter, params: Params): (r: Filter)
    ensures !Truthy(Lookup(params, "keyword")) ==> r == f
    ensures Truthy(Lookup(params, "keyword")) ==>
      r.Keys == f.Keys + {"name"} && r["name"] == Regex(params["keyword"], "i")
    ensures forall k :: k in f && k != "name" ==> k in r && r[k] == f[k]
  {
    if Truthy(Lookup(params, "keyword")) then f["name" := Regex(params["keyword"], "i")] else f
  }

  /** The copy of `req.query` with the reserved fields deleted. */
  function Unreserved(params: Params): (r: Params)
    ensures r.Keys == params.Keys - {"keyword", "page", "limit"}
    ensures forall k :: k in r ==> r[k] == params[k]
  {
    params - {"keyword", "page", "limit"}
  }

  /**
   * The filter object after `filter`: every unreserved parameter is copied
   * with its value, the other keys are kept, and nothing else is added.
   */
  function WithParams(f: Filter, params: Params): (r: Filter)
    ensures r.Keys == f.Keys + (params.Keys - {"keyword", "page", "limit"})
    ensures forall k :: k in params && k !in RemoveFields ==> r[k] == Text(params[k])
    ensures forall k :: k in f && (k !in params || k in RemoveFields) ==> r[k] == f[k]
    ensures forall k :: k in RemoveFields ==> (k in r <==> k in f)
  {
    f + map k | k in Unreserved(params) :: Text(params[k])
  }

  /** Later wins: a `name` parameter replaces the keyword condition `search` put under `name`. */
  lemma NameParameterOverridesKeyword(f: Filter, params: Params)
    requires Truthy(Lookup(params, "keyword")) && "name" in params
    ensures WithKeyword(f, params)["name"] == Regex(params["keyword"], "i")
    ensures WithParams(WithKeyword(f, params), params)["name"] == Text(params["name"])
  {
  }

  /** From a fresh planner, `search` then `filter` never puts a reserved key in the filter object. */
  lemma PlannedFilterHasNoReservedKey(params: Params)
    ensures forall k :: k in RemoveFields ==> k !in WithParams(WithKeyword(map[], params), params)
  {
  }

  // ---------------------------------------------------------------------------
  // paginate, as functions of its inputs

  /** `Number(this.queryStr.page) || 1`. */
  function RequestedPage(pageParam: Option<string>): (p: int)
    ensures p != 0
    ensures ToNumber(pageParam).None? || ToNumber(pageParam) == Some(0) ==> p == DefaultPage
    ensures ToNumber(pageParam).Some? && ToNumber(pageParam).value != 0 ==> p == ToNumber(pageParam).value
  {
    match ToNumber(pageParam)
    case Some(n) => if n != 0 then n else DefaultPage
    case None => DefaultPage
  }

  /** `Number(resultPerPage) || 10`: a zero limit falls back to the default, any other is kept. */
  function EffectiveLimit(resultPerPage: int): (l: int)
    ensures l != 0
    ensures resultPerPage != 0 ==> l == resultPerPage
    ensures resultPerPage == 0 ==> l == DefaultLimit
  {
    if resultPerPage != 0 then resultPerPage else DefaultLimit
  }

  /** `Math.ceil(a / b)` on integers, for a divisor of either sign. */
  function CeilDiv(a: int, b: int): (q: int)
    requires b != 0
    ensures b > 0 ==> (q - 1) * b < a <= q * b
    ensures b < 0 ==> q * b <= a < (q - 1) * b
  {
    if b > 0 then
      var q := (a + b - 1) / b;
      assert q * b <= a + b - 1 < q * b + b;
      q
    else
      var q := 0 - a / (0 - b);
      assert (0 - q) * (0 - b) <= a < (0 - q) * (0 - b) + (0 - b);
      q
  }

  /** `totalProducts ? Math.ceil(totalProducts / limit) : null`. */
  function TotalPages(limit: int, totalProducts: Option<nat>): (tp: Option<int>)
    requires limit != 0
    ensures tp.Some? <==> totalProducts.Some? && totalProducts.value != 0
    ensures tp.Some? ==> tp.value == CeilDiv(totalProducts.value, limit)
    ensures tp.Some? && limit >= 1 ==> tp.value >= 1
    ensures tp.Some? && limit < 0 ==> tp.value <= 0
  {
    if totalProducts.Some? && totalProducts.value != 0 then
      var t := totalProducts.value;
      var q := CeilDiv(t, limit);
      assert limit >= 1 ==> q >= 1 by {
        if limit >= 1 && q < 1 { MulMonotone(limit, q, 0); }
      }
      assert limit < 0 ==> q <= 0 by {
        if limit < 0 && q > 0 { MulMonotone(q, limit, 0); }
      }
      Some(q)
    else None
  }

  /** The two clamps of `paginate`: down to a truthy `totalPages`, then up to 1. */
  function ClampPage(page: int, totalPages: Option<int>): (p: int)
    ensures p >= 1
    ensures totalPages.Some? && totalPages.value >= 1 ==> p <= totalPages.value
    ensures page >= 1 && (totalPages.None? || totalPages.value == 0 || page <= totalPages.value) ==> p == page
    ensures page < 1 ==> p == 1
    ensures totalPages.Some? && totalPages.value >= 1 && page > totalPages.value ==> p == totalPages.value
    ensures totalPages.Some? && totalPages.value < 0 ==> p == 1
  {
    var clamped := if totalPages.Some? && totalPages.value != 0 && page > totalPages.value then totalPages.value else page;
    if clamped < 1 then 1 else clamped
  }

  /** What `paginate` settles on: the limit, the resolved page and the number of documents skipped. */
  datatype PagePlan = PagePlan(limit: int, page: int, skip: int)

  lemma MulMonotone(a: int, b: int, c: int)
    requires a >= 0 && b <= c
    ensures a * b <= a * c
  {
  }

  /**
   * `paginate`'s plan: the limit is the effective one, the page is at least 1,
   * and the documents skipped are those of the earlier pages.
   */
  function Plan(pageParam: Option<string>, resultPerPage: int, totalProducts: Option<nat>): (pl: PagePlan)
    ensures pl.limit == EffectiveLimit(resultPerPage)
    ensures pl.page >= 1 && pl.skip == pl.limit * (pl.page - 1)
    ensures pl.limit >= 1 ==> pl.skip >= 0
    ensures pl.limit < 0 && totalProducts.Some? && CeilDiv(totalProducts.value, pl.limit) < 0 ==> pl.page == 1 && pl.skip == 0
    ensures pl.page == ClampPage(RequestedPage(pageParam), TotalPages(pl.limit, totalProducts))
  {
    var limit := EffectiveLimit(resultPerPage);
    var page := ClampPage(RequestedPage(pageParam), TotalPages(limit, totalProducts));
    assert limit >= 1 ==> limit * (page - 1) >= 0 by {
      if limit >= 1 { MulMonotone(limit, 0, page - 1); }
    }
    PagePlan(limit, page, limit * (page - 1))
  }

  /**
   * With a positive limit and a non-zero total, the page lands in
   * [1, ceil(total/limit)] and skips fewer documents than there are.
   */
  lemma PlanBounds(pageParam: Option<string>, resultPerPage: int, total: nat)
    requires EffectiveLimit(resultPerPage) >= 1 && total > 0
    ensures var pl := Plan(pageParam, resultPerPage, Some(total));
      1 <= pl.page <= CeilDiv(total, pl.limit) && 0 <= pl.skip < total
  {
    var pl := Plan(pageParam, resultPerPage, Some(total));
    var tp := CeilDiv(total, pl.limit);
    assert tp >= 1 by {
      if tp < 1 { MulMonotone(pl.limit, tp, 0); }
    }
    MulMonotone(pl.limit, pl.page - 1, tp - 1);
    MulMonotone(pl.limit, 0, pl.page - 1);
    assert pl.limit * (tp - 1) == (tp - 1) * pl.limit;
  }

  /**
   * A requested page at or past the last page lands on the last page, and
   * skips all the documents of the pages before it.
   */
  lemma PlanClampsToLastPage(pageParam: Option<string>, resultPerPage: int, total: nat)
    requires EffectiveLimit(resultPerPage) >= 1 && total > 0
    requires ToNumber(pageParam).Some? && ToNumber(pageParam).value >= CeilDiv(total, EffectiveLimit(resultPerPage))
    ensures var limit := EffectiveLimit(resultPerPage);
      var pl := Plan(pageParam, resultPerPage, Some(total));
      pl.page == CeilDiv(total, limit) && pl.skip == limit * (CeilDiv(total, limit) - 1)
  {
  }

  /** Without a (truthy) total there is no upper clamp: a requested page of at least 1 is kept. */
  lemma NoTotalNoClamp(pageParam: Option<string>, resultPerPage: int, totalProducts: Option<nat>)
    requires totalProducts.None? || totalProducts.value == 0
    requires ToNumber(pageParam).Some? && ToNumber(pageParam).value >= 1
    ensures Plan(pageParam, resultPerPage, totalProducts).page == ToNumber(pageParam).value
  {
  }

  /** With a total, a requested page from 1 up to the last page is served as asked. */
  lemma PlanKeepsPageInRange(pageParam: Option<string>, resultPerPage: int, total: nat)
    requires EffectiveLimit(resultPerPage) >= 1 && total > 0
    requires ToNumber(pageParam).Some? && 1 <= ToNumber(pageParam).value <= CeilDiv(total, EffectiveLimit(resultPerPage))
    ensures var pl := Plan(pageParam, resultPerPage, Some(total));
      pl.page == ToNumber(pageParam).value && pl.skip == pl.limit * (ToNumber(pageParam).value - 1)
  {
  }

  /**
   * A missing, zero or non-numeric page parameter resolves to page 1 and
   * skip 0, whatever the limit and total; a zero `resultPerPage` gives limit 10.
   */
  lemma PlanDefaults(pageParam: Option<string>, resultPerPage: int, totalProducts: Option<nat>)
    requires ToNumber(pageParam).None? || ToNumber(pageParam) == Some(0)
    ensures Plan(pageParam, resultPerPage, totalProducts).page == 1
    ensures Plan(pageParam, resultPerPage, totalProducts).skip == 0
    ensures resultPerPage == 0 ==> Plan(pageParam, resultPerPage, totalProducts).limit == DefaultLimit
  {
  }

  // ---------------------------------------------------------------------------
  // The planner object

  class ApiFunctionality {
    var query: MongoQuery
    const queryStr: Params
    var filterQuery: Filter
    var currentPage: int

    constructor (query: MongoQuery, queryStr: Params)
      ensures this.query == query && this.queryStr == queryStr
      ensures filterQuery == map[] && currentPage == 1
    {
      this.query := query;
      this.queryStr := queryStr;
      this.filterQuery := map[];
      this.currentPage := 1;
    }

    /** Adds the keyword's case-insensitive `name` condition when `keyword` is truthy. */
    method Search()
      modifies this
      ensures filterQuery == WithKeyword(old(filterQuery), queryStr)
      ensures query == old(query) && currentPage == old(currentPage)
    {
      var keyword := Lookup(queryStr, "keyword");
      if Truthy(keyword) {
        var keywordFilter := map["name" := Regex(keyword.value, "i")];
        filterQuery := filterQuery + keywordFilter;
      }
    }

    /** Copies the unreserved parameters into the filter object and applies it with `find`. */
    method Filter()
      modifies this
      ensures filterQuery == WithParams(old(filterQuery), queryStr)
      ensures query == old(query).Find(filterQuery)
      ensures currentPage == old(currentPage)
    {
      var queryCopy := queryStr;
      var i := 0;
      while i < |RemoveFields|
        invariant 0 <= i <= |RemoveFields|
        invariant queryCopy == queryStr - (set j | 0 <= j < i :: RemoveFields[j])
      {
        queryCopy := queryCopy - {RemoveFields[i]};
        i := i + 1;
      }
      assert (set j | 0 <= j < |RemoveFields| :: RemoveFields[j]) == {"keyword", "page", "limit"} by {
        assert RemoveFields[0] == "keyword" && RemoveFields[1] == "page" && RemoveFields[2] == "limit";
      }
      filterQuery := filterQuery + map k | k in queryCopy :: Text(queryCopy[k]);
      query := query.Find(filterQuery);
    }

    /** Resolves the page, clamps it and applies `limit` then `skip`. */
    method Paginate(resultPerPage: int, totalProducts: Option<nat>)
      modifies this
      ensures var pl := Plan(Lookup(queryStr, "page"), resultPerPage, totalProducts);
        currentPage == pl.page && query == old(query).Limit(pl.limit).Skip(pl.skip)
      ensures filterQuery == old(filterQuery)
    {
      var page := RequestedPage(Lookup(queryStr, "page"));
      var limit := EffectiveLimit(resultPerPage);
      var totalPages := TotalPages(limit, totalProducts);
      if totalPages.Some? && totalPages.value != 0 && page > totalPages.value {
        page := totalPages.value;
      }
      if page < 1 {
        page := 1;
      }
      var skip := limit * (page - 1);
      query := query.Limit(limit).Skip(skip);
      currentPage := page;
    }
  }

  /**
   * search({keyword: "shirt", category: "men", page: "4"}), filter, then
   * paginate(10, 25): the filter holds the name pattern and the category,
   * and the page is clamped from 4 to 3 with skip 20.
   */
  method ShirtScenario() returns (planner: ApiFunctionality)
    ensures planner.filterQuery == map["name" := Regex("shirt", "i"), "category" := Text("men")]
    ensures planner.currentPage == 3
    ensures planner.query == MongoQuery(Some(planner.filterQuery), Some(10), Some(20))
  {
    var params := map["keyword" := "shirt", "category" := "men", "page" := "4"];
    planner := new ApiFunctionality(MongoQuery(None, None, None), params);
    planner.Search();
    planner.Filter();
    assert ToNumber(Some("4")) == Some(4) by {
      assert AllDigits("4");
      assert "4"[..0] == "";
    }
    planner.Paginate(10, Some(25));
    assert WithParams(map["name" := Regex("shirt", "i")], params)
        == map["name" := Regex("shirt", "i"), "category" := Text("men")];
  }
}
