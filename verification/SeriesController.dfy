/**
 * The series API endpoints: `index` (paginated listing) and `show` (one
 * series), both instances of the shared query-shaping rule with the Series
 * allow-lists.
 */
module SeriesController {

  import opened Options
  import opened Strings
  import opened QueryPlan

  /** Relations a client may include on a series. */
  const AllowedIncludePaths: set<string> := {"anime.synonyms", "anime.themes", "anime.themes.entries", "anime.themes.entries.videos", "anime.themes.song", "anime.themes.song.artists", "anime.externalResources"}

  /** Fields a client may sort series listings by, matched case-insensitively. */
  const AllowedSortFields: set<string> := {"series_id", "created_at", "updated_at", "alias", "name"}

  const SeriesSchema := Schema(AllowedIncludePaths, AllowedSortFields)

  lemma IncludePathCount()
    ensures |AllowedIncludePaths| == 7
  {
  }

  /** GET /series/ */
  function Index(q: ParsedQuery): (r: IndexPlan)
    ensures r.source.SearchFor? <==> q.search.Some?
    ensures q.search.Some? ==> r.source.term == q.search.value
    ensures r.orderBy == ResolveSorts(q.sorts, AllowedSortFields)
    ensures r.eagerLoad == IncludePaths(q.includes, AllowedIncludePaths)
    ensures forall p :: p in r.eagerLoad <==> p in q.includes && p in AllowedIncludePaths
    ensures forall c :: c in r.orderBy ==>
      c.field == "series_id" || c.field == "created_at" || c.field == "updated_at" || c.field == "alias" || c.field == "name"
    ensures forall p :: p in r.eagerLoad ==> p == "anime.synonyms" || p == "anime.themes" || p == "anime.themes.entries" || p == "anime.themes.entries.videos" || p == "anime.themes.song" || p == "anime.themes.song.artists" || p == "anime.externalResources"
    ensures |set p | p in r.eagerLoad| <= 7
    ensures r.perPage == q.perPage
  {
    IncludeCountBounded(q.includes, AllowedIncludePaths);
    IncludePathCount();
    BuildIndexPlan(SeriesSchema, q)
  }

  /** GET /series/{alias}: the relations loaded onto the bound series. */
  function Show(q: ParsedQuery): (r: ShowPlan)
    ensures forall p :: p in r.eagerLoad ==> p == "anime.synonyms" || p == "anime.themes" || p == "anime.themes.entries" || p == "anime.themes.entries.videos" || p == "anime.themes.song" || p == "anime.themes.song.artists" || p == "anime.externalResources"
    ensures |set p | p in r.eagerLoad| <= 7
    ensures r.eagerLoad == Index(q).eagerLoad
  {
    IncludeCountBounded(q.includes, AllowedIncludePaths);
    IncludePathCount();
    BuildShowPlan(SeriesSchema, q)
  }

  /** A sort token is honoured iff its field names one of the allowed fields in some mix of cases. */
  lemma SortIsCaseInsensitive(t: SortToken)
    ensures Accepted(t, AllowedSortFields)
        <==> exists n :: n in AllowedSortFields && SameIgnoringCase(t.field, n)
  {
    LowerMemberIff(t.field, AllowedSortFields);
  }

  /** The sort parameter "UPDATED_AT,-bogus", as the parser hands it over. */
  lemma ExampleSort(q: ParsedQuery)
    requires q.sorts == [SortToken("UPDATED_AT", true), SortToken("bogus", false)]
    ensures Index(q).orderBy == [OrderBy("updated_at", Asc)]
  {
    assert Lower("UPDATED_AT") == "updated_at";
    assert Lower("bogus") == "bogus";
    var s := q.sorts;
    assert Accepted(s[0], AllowedSortFields) && !Accepted(s[1], AllowedSortFields);
    assert ResolveSorts(s[1..][1..], AllowedSortFields) == [];
    assert ResolveSorts(s[1..], AllowedSortFields) == [];
    assert ResolveSorts(s, AllowedSortFields) == [ClauseOf(s[0])];
  }
}
