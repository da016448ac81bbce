/**
 * The query-shaping rule shared by the API controllers' `index` and `show`
 * actions: pick a search or a plain query, eager-load only allowed include
 * paths, turn the client's sort map into order-by clauses filtered by the
 * resource's sort allow-list, and paginate with the parser's limit.
 *
 * Resource-specific behaviour is data: a Schema value per resource type.
 * The query parser's outputs are inputs here (ParsedQuery).
 */
module QueryPlan {

  import opened Options
  import opened Strings

  /** Order-by direction; its keyword is what the controller passes to orderBy. */
  datatype Direction = Asc | Desc {
    function Keyword(): string {
      match this
      case Asc => "asc"
      case Desc => "desc"
    }
  }

  /** One entry of the parser's sort map, in client order: a field token and its ascending flag. */
  datatype SortToken = SortToken(field: string, isAsc: bool)

  /** One orderBy(field, direction) call on the builder. */
  datatype OrderBy = OrderBy(field: string, direction: Direction)

  /**
   * What the query parser reports: the search term if any (hasSearch /
   * getSearch), the requested include paths, the sort map in client
   * order, and the per-page limit (getPerPageLimit).
   */
  datatype ParsedQuery = ParsedQuery(
    search: Option<string>,
    includes: seq<string>,
    sorts: seq<SortToken>,
    perPage: int)

  /** Per-resource allow-lists ($allowedIncludePaths, $allowedSortFields). */
  datatype Schema = Schema(includePaths: set<string>, sortFields: set<string>)

  /** Where the builder starts: a search on the term, or the unfiltered query. */
  datatype Source = SearchFor(term: string) | AllRows

  /** The builder `index` hands to paginate. */
  datatype IndexPlan = IndexPlan(source: Source, eagerLoad: seq<string>, orderBy: seq<OrderBy>, perPage: int)

  /** What `show` loads onto the bound model. */
  datatype ShowPlan = ShowPlan(eagerLoad: seq<string>)

  /** The page-size range the parser documents for its limit. */
  predicate DocumentedLimit(q: ParsedQuery) {
    1 <= q.perPage <= 100
  }

  function DirectionOf(isAsc: bool): (d: Direction)
    ensures d.Keyword() == (if isAsc then "asc" else "desc")
  {
    if isAsc then Asc else Desc
  }

  /** A sort token is honoured when its lower-cased field is on the allow-list. */
  predicate Accepted(t: SortToken, allowed: set<string>) {
    Lower(t.field) in allowed
  }

  /** The clause an accepted token produces. */
  function ClauseOf(t: SortToken): OrderBy {
    OrderBy(Lower(t.field), DirectionOf(t.isAsc))
  }

  /**
   * The order-by clauses for a sort map: one clause per accepted token, in
   * the tokens' order; rejected tokens are dropped silently.
   */
  function ResolveSorts(sorts: seq<SortToken>, allowed: set<string>): (r: seq<OrderBy>)
    ensures |r| <= |sorts|
    ensures forall c :: c in r ==> c.field in allowed && NoUpper(c.field)
    decreases |sorts|
  {
    if |sorts| == 0 then []
    else
      LowerNormalises(sorts[0].field);
      (if Accepted(sorts[0], allowed) then [ClauseOf(sorts[0])] else [])
        + ResolveSorts(sorts[1..], allowed)
  }

  /** Resolving a concatenation resolves the parts separately: each token is judged on its own. */
  lemma {:induction false} ResolveSortsAppend(a: seq<SortToken>, b: seq<SortToken>, allowed: set<string>)
    ensures ResolveSorts(a + b, allowed) == ResolveSorts(a, allowed) + ResolveSorts(b, allowed)
    decreases |a|
  {
    if |a| > 0 {
      assert (a + b)[1..] == a[1..] + b;
      ResolveSortsAppend(a[1..], b, allowed);
    } else {
      assert a + b == b;
    }
  }

  /** A token whose field is not allowed produces no clause and leaves the others as they were. */
  lemma RejectedTokenIgnored(a: seq<SortToken>, t: SortToken, b: seq<SortToken>, allowed: set<string>)
    requires !Accepted(t, allowed)
    ensures ResolveSorts(a + [t] + b, allowed) == ResolveSorts(a + b, allowed)
  {
    ResolveSortsAppend(a + [t], b, allowed);
    ResolveSortsAppend(a, [t], allowed);
    ResolveSortsAppend(a, b, allowed);
  }

  /** An accepted token contributes exactly its clause, between the clauses of its neighbours. */
  lemma AcceptedTokenKept(a: seq<SortToken>, t: SortToken, b: seq<SortToken>, allowed: set<string>)
    requires Accepted(t, allowed)
    ensures ResolveSorts(a + [t] + b, allowed)
         == ResolveSorts(a, allowed) + [ClauseOf(t)] + ResolveSorts(b, allowed)
  {
    ResolveSortsAppend(a + [t], b, allowed);
    ResolveSortsAppend(a, [t], allowed);
  }

  /** The first accepted token is the primary sort key. */
  lemma {:induction false} PrimarySortKey(sorts: seq<SortToken>, k: nat, allowed: set<string>)
    requires k < |sorts| && Accepted(sorts[k], allowed)
    requires forall j :: 0 <= j < k ==> !Accepted(sorts[j], allowed)
    ensures var r := ResolveSorts(sorts, allowed); |r| > 0 && r[0] == ClauseOf(sorts[k])
    decreases k
  {
    if k > 0 {
      PrimarySortKey(sorts[1..], k - 1, allowed);
    }
  }

  /** A clause is emitted iff some token is accepted and produces it. */
  lemma {:induction false} ResolveSortsMembers(sorts: seq<SortToken>, allowed: set<string>, c: OrderBy)
    ensures c in ResolveSorts(sorts, allowed)
        <==> exists i :: 0 <= i < |sorts| && Accepted(sorts[i], allowed) && c == ClauseOf(sorts[i])
    decreases |sorts|
  {
    if |sorts| > 0 {
      ResolveSortsMembers(sorts[1..], allowed, c);
      if i :| 0 <= i < |sorts[1..]| && Accepted(sorts[1..][i], allowed) && c == ClauseOf(sorts[1..][i]) {
        assert sorts[1..][i] == sorts[i + 1];
      }
      if i :| 0 <= i < |sorts| && Accepted(sorts[i], allowed) && c == ClauseOf(sorts[i]) {
        if i > 0 {
          assert sorts[1..][i - 1] == sorts[i];
        }
      }
    }
  }

  /**
   * The controller's foreach over the sort map, one orderBy per accepted
   * field, in iteration order.
   */
  method ApplySorts(sorts: seq<SortToken>, allowed: set<string>) returns (clauses: seq<OrderBy>)
    ensures clauses == ResolveSorts(sorts, allowed)
  {
    clauses := [];
    for i := 0 to |sorts|
      invariant clauses == ResolveSorts(sorts[..i], allowed)
    {
      var t := sorts[i];
      assert sorts[..i + 1] == sorts[..i] + [t];
      ResolveSortsAppend(sorts[..i], [t], allowed);
      var field := Lower(t.field);
      if field in allowed {
        clauses := clauses + [OrderBy(field, if t.isAsc then Asc else Desc)];
      }
    }
    assert sorts[..|sorts|] == sorts;
  }

  /**
   * The parser's getIncludePaths(allowed): the requested paths whose whole
   * dotted path is on the allow-list, in request order.
   */
  function IncludePaths(requested: seq<string>, allowed: set<string>): (r: seq<string>)
    ensures |r| <= |requested|
    ensures forall p :: p in r <==> p in requested && p in allowed
    decreases |requested|
  {
    if |requested| == 0 then []
    else
      (if requested[0] in allowed then [requested[0]] else [])
        + IncludePaths(requested[1..], allowed)
  }

  /** The distinct include paths handed to `with()` never outnumber the allow-list. */
  lemma IncludeCountBounded(requested: seq<string>, allowed: set<string>)
    ensures |set p | p in IncludePaths(requested, allowed)| <= |allowed|
  {
    var s := set p | p in IncludePaths(requested, allowed);
    assert s <= allowed;
    SubsetCard(s, allowed);
  }

  lemma {:induction false} SubsetCard<T>(a: set<T>, b: set<T>)
    requires a <= b
    ensures |a| <= |b|
    decreases |b|
  {
    if b != {} {
      var x :| x in b;
      SubsetCard(a - {x}, b - {x});
    }
  }

  /** `index`: the builder, its eager loads, its order-by clauses and the page size. */
  function BuildIndexPlan(schema: Schema, q: ParsedQuery): (r: IndexPlan)
    ensures r.source.SearchFor? <==> q.search.Some?
    ensures q.search.Some? ==> r.source.term == q.search.value
    ensures forall p :: p in r.eagerLoad <==> p in q.includes && p in schema.includePaths
    ensures forall c :: c in r.orderBy ==> c.field in schema.sortFields
    ensures r.orderBy == ResolveSorts(q.sorts, schema.sortFields)
    ensures r.perPage == q.perPage
    ensures DocumentedLimit(q) ==> 1 <= r.perPage <= 100
  {
    var source := if q.search.Some? then SearchFor(q.search.value) else AllRows;
    IndexPlan(source, IncludePaths(q.includes, schema.includePaths), ResolveSorts(q.sorts, schema.sortFields), q.perPage)
  }

  /** `show`: the relations loaded onto the bound model, filtered like `index`'s. */
  function BuildShowPlan(schema: Schema, q: ParsedQuery): (r: ShowPlan)
    ensures forall p :: p in r.eagerLoad <==> p in q.includes && p in schema.includePaths
  {
    ShowPlan(IncludePaths(q.includes, schema.includePaths))
  }
}
