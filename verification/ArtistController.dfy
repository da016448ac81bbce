/**
 * The artist API endpoints: `index` (paginated listing) and `show` (one
 * artist), both instances of the shared query-shaping rule with the Artist
 * allow-lists.
 */
module ArtistController {

  import opened Options
  import opened Strings
  import opened QueryPlan

  /** Relations a client may include on an artist. */
  const AllowedIncludePaths: set<string> := {"songs", "songs.themes", "songs.themes.anime", "members", "groups", "externalResources"}

  /** Fields a client may sort artist listings by, matched case-insensitively. */
  const AllowedSortFields: set<string> := {"artist_id", "created_at", "updated_at", "alias", "name"}

  const ArtistSchema := Schema(AllowedIncludePaths, AllowedSortFields)

  lemma IncludePathCount()
    ensures |AllowedIncludePaths| == 6
  {
  }

  /** GET /artist/ */
  function Index(q: ParsedQuery): (r: IndexPlan)
    ensures r.source.SearchFor? <==> q.search.Some?
    ensures q.search.Some? ==> r.source.term == q.search.value
    ensures r.orderBy == ResolveSorts(q.sorts, AllowedSortFields)
    ensures r.eagerLoad == IncludePaths(q.includes, AllowedIncludePaths)
    ensures forall p :: p in r.eagerLoad <==> p in q.includes && p in AllowedIncludePaths
    ensures forall c :: c in r.orderBy ==>
      c.field == "artist_id" || c.field == "created_at" || c.field == "updated_at" || c.field == "alias" || c.field == "name"
    ensures forall p :: p in r.eagerLoad ==> p == "songs" || p == "songs.themes" || p == "songs.themes.anime" || p == "members" || p == "groups" || p == "externalResources"
    ensures |set p | p in r.eagerLoad| <= 6
    ensures r.perPage == q.perPage
  {
    IncludeCountBounded(q.includes, AllowedIncludePaths);
    IncludePathCount();
    BuildIndexPlan(ArtistSchema, q)
  }

  /** GET /artist/{alias}: the relations loaded onto the bound artist. */
  function Show(q: ParsedQuery): (r: ShowPlan)
    ensures forall p :: p in r.eagerLoad ==> p == "songs" || p == "songs.themes" || p == "songs.themes.anime" || p == "members" || p == "groups" || p == "externalResources"
    ensures |set p | p in r.eagerLoad| <= 6
    ensures r.eagerLoad == Index(q).eagerLoad
  {
    IncludeCountBounded(q.includes, AllowedIncludePaths);
    IncludePathCount();
    BuildShowPlan(ArtistSchema, q)
  }

  /** A sort token is honoured iff its field names one of the allowed fields in some mix of cases. */
  lemma SortIsCaseInsensitive(t: SortToken)
    ensures Accepted(t, AllowedSortFields)
        <==> exists n :: n in AllowedSortFields && SameIgnoringCase(t.field, n)
  {
    LowerMemberIff(t.field, AllowedSortFields);
  }

  /** The sort parameter "name,-updated_at", as the parser hands it over. */
  lemma ExampleSort(q: ParsedQuery)
    requires q.sorts == [SortToken("name", true), SortToken("updated_at", false)]
    ensures Index(q).orderBy == [OrderBy("name", Asc), OrderBy("updated_at", Desc)]
  {
    LowerNormalises("name");
    LowerNormalises("updated_at");
    var s := q.sorts;
    assert Accepted(s[0], AllowedSortFields) && Accepted(s[1], AllowedSortFields);
    assert ResolveSorts(s[1..][1..], AllowedSortFields) == [];
    assert ResolveSorts(s[1..], AllowedSortFields) == [ClauseOf(s[1])];
    assert ResolveSorts(s, AllowedSortFields) == [ClauseOf(s[0]), ClauseOf(s[1])];
  }
}
