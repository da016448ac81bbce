# animethemes-server: query shaping and wiki import, modelled in Dafny

This project models two pieces of sequential logic from the animethemes
server.

1. **Query shaping in the API controllers.** `ArtistController` and
   `SeriesController` turn the query parser's output into an ORM query in
   the same way in `index`:
   - start from a search when a search term is present, otherwise from the plain query;
   - eager-load only the allowed include paths;
   - emit one `orderBy` per sort token whose lower-cased field is on the
     resource's sort allow-list, in the client's order, as `asc` or `desc`
     according to the token's flag;
   - paginate with the parser's per-page limit.

   `show` loads the same filtered include paths onto the bound model. The
   model has one generic pipeline over a `Schema` value (`QueryPlan`). The
   two controller modules instantiate it with the allow-lists from their
   doc comments.
2. **The wiki import** (`AnimeThemeSeeder`). It reads each year page line
   by line and keeps a cursor of the current anime, group, theme and
   entry. Each line is a heading, synonym list, group name, theme row,
   extra video row or anything else. The model is a deterministic state
   machine `Step(rule, state, line) -> (state, actions)`, and the database
   writes become a list of `Action`s. `rule` picks how group lines are
   read: `AsWritten` follows the code, `Intended` the evident intent (see
   Findings). Every run-level result holds for both. `create_entry` is modelled in
   `SeederEntry`: it derives the `nsfw`/`spoiler` flags and the cleaned
   notes.

Files:
- `Options.dfy`: the `Option` type (PHP `NULL` or a value).
- `Strings.dfy`: ASCII case mapping, substring search, `trim`, `explode`/`implode`, and digit strings.
- `QueryPlan.dfy`: the generic controller pipeline.
- `ArtistController.dfy` and `SeriesController.dfy`: the two resource instances.
- `SeederEntry.dfy`: `create_entry`.
- `AnimeThemeSeeder.dfy`: the line state machine, pages and runs, and a referential-soundness theorem about the writes.

The main results:
- **Sort resolution.** `ResolveSorts` is a filter-then-map over the sort
  tokens. It distributes over concatenation (`ResolveSortsAppend`). From
  that follow: rejected tokens are ignored, accepted tokens keep their
  relative order, and the first accepted token is the primary key. The
  controller's `foreach` (`ApplySorts`) computes exactly this.
- **Import soundness.** Whatever lines the year pages hold, replaying the
  import's writes never refers to a row that was not created earlier and
  never reuses a handle. Every theme points at a song, every entry at a
  theme, and every video attachment at an entry
  (`ImportIsReferentiallySound`).

## Model

| member | source | states |
|---|---|---|
| QueryPlan.DirectionOf | app/Http/Controllers/Api/ArtistController.php:81 | an ascending flag gives the keyword `asc`, a descending one `desc` |
| QueryPlan.ResolveSorts | app/Http/Controllers/Api/ArtistController.php:79-83 | every emitted order-by field is on the sort allow-list and is lower-case; there are never more clauses than sort tokens |
| QueryPlan.ResolveSortsAppend | app/Http/Controllers/Api/ArtistController.php:79-82 | each token is judged on its own: the clauses for a concatenation of sort maps are the clauses of the first part followed by those of the second, so relative order is kept |
| QueryPlan.RejectedTokenIgnored | app/Http/Controllers/Api/ArtistController.php:80 | a token whose lower-cased field is not allowed contributes no clause and leaves the clauses of all other tokens unchanged |
| QueryPlan.AcceptedTokenKept | app/Http/Controllers/Api/ArtistController.php:80-81 | an allowed token contributes exactly its clause (lower-cased field, direction from its flag), placed between the clauses of the tokens before and after it |
| QueryPlan.PrimarySortKey | app/Http/Controllers/Api/ArtistController.php:79-82 | the first clause comes from the first accepted token, so that token is the primary sort key |
| QueryPlan.ResolveSortsMembers | app/Http/Controllers/Api/ArtistController.php:79-83 | a clause is emitted if and only if some token is accepted and produces it |
| QueryPlan.ApplySorts | app/Http/Controllers/Api/ArtistController.php:79-83 | the foreach loop over the sort map, appending one orderBy per allowed field, yields exactly the filtered clauses |
| QueryPlan.IncludePaths | app/Http/Controllers/Api/ArtistController.php:76 | a path is eager-loaded if and only if it was requested and its whole dotted path is on the include allow-list |
| QueryPlan.IncludeCountBounded | app/Http/Controllers/Api/ArtistController.php:76 | the number of distinct include paths handed to `with()` never exceeds the size of the allow-list (nested paths also load their intermediate relations, which this does not count) |
| QueryPlan.BuildIndexPlan | app/Http/Controllers/Api/ArtistController.php:70-86 | the builder starts from a search on the term if and only if the parser reports one; eager loads are exactly the requested allowed paths; every order-by field is allowed, and the order-by clauses are exactly the sort resolution of the requested keys (so rejected keys vanish, accepted ones keep their order and the first is primary); the page size is the parser's limit, within [1,100] whenever the parser's limit is |
| QueryPlan.BuildShowPlan | app/Http/Controllers/Api/ArtistController.php:132-134 | `show` loads exactly the requested allowed include paths |
| ArtistController.Index | app/Http/Controllers/Api/ArtistController.php:70-86 | search iff a search term is present, on that term; the order-by clauses are the sort resolution of the requested keys against the artist fields; order-by fields only among artist_id, created_at, updated_at, alias, name; eager loads exactly the requested paths on the allow-list, in request order (so only among songs, songs.themes, songs.themes.anime, members, groups, externalResources, at most six distinct); page size equals the parser limit |
| ArtistController.Show | app/Http/Controllers/Api/ArtistController.php:132-134 | eager loads only among the six Artist include paths, the same list `index` loads for the same request |
| ArtistController.SortIsCaseInsensitive | app/Http/Controllers/Api/ArtistController.php:38 | a sort token is honoured if and only if its field equals one of the five Artist sort fields up to letter case |
| ArtistController.ExampleSort | app/Http/Controllers/Api/ArtistController.php:39 | the documented example `name,-updated_at` orders by name ascending, then updated_at descending |
| SeriesController.Index | app/Http/Controllers/Api/SeriesController.php:70-86 | search iff a search term is present, on that term; the order-by clauses are the sort resolution of the requested keys against the series fields; order-by fields only among series_id, created_at, updated_at, alias, name; eager loads exactly the requested paths on the allow-list, in request order (so only among the seven anime.* include paths); page size equals the parser limit |
| SeriesController.Show | app/Http/Controllers/Api/SeriesController.php:132-134 | eager loads only among the seven Series include paths, the same list `index` loads for the same request |
| SeriesController.SortIsCaseInsensitive | app/Http/Controllers/Api/SeriesController.php:38 | a sort token is honoured if and only if its field equals one of the five Series sort fields up to letter case |
| SeriesController.ExampleSort | app/Http/Controllers/Api/SeriesController.php:79-83 | `UPDATED_AT,-bogus` orders by updated_at ascending and drops the unknown field silently |
| Strings.LowerMemberIff | app/Http/Controllers/Api/ArtistController.php:80 | looking up the lower-cased token in an all-lower-case list is the same as matching some listed name ignoring case |
| Strings.ContainsIff | database/seeds/AnimeThemeSeeder.php:185 | the left-to-right substring search succeeds if and only if the needle occurs at some position |
| Strings.Trim | database/seeds/AnimeThemeSeeder.php:132 | the trimmed string is the part of the input left after removing only space, tab, newline, return, NUL and vertical tab characters from its start and end, and it has none of them at either end |
| Strings.TrimCharacterised | database/seeds/AnimeThemeSeeder.php:132 | any cut of the input that removes only trim characters at both ends and keeps none at its own ends is exactly the trimmed string |
| Strings.TrimIdempotent | database/seeds/AnimeThemeSeeder.php:132 | trimming twice is trimming once |
| Strings.Explode | database/seeds/AnimeThemeSeeder.php:101 | explode yields at least one piece, its first piece is a prefix of the input, and no piece contains the separator |
| Strings.JoinExplode | database/seeds/AnimeThemeSeeder.php:101 | joining the exploded synonym pieces with ", " gives back the captured list |
| Strings.NumericDecimal | database/seeds/AnimeThemeSeeder.php:146-148 | reading back a rendered decimal number yields that number |
| Strings.LeadingZero | database/seeds/AnimeThemeSeeder.php:147 | leading zeros do not change intval of a digit run |
| SeederEntry.FlagOnlyIff | database/seeds/AnimeThemeSeeder.php:191 | the greedy matcher accepts a string if and only if it splits into an optional "NSFW", an optional comma plus one whitespace character, and an optional "Spoiler" |
| SeederEntry.FlagOnlyHasSplit | database/seeds/AnimeThemeSeeder.php:191 | whenever the greedy matcher accepts, the string splits into the pattern's three optional parts, so the greedy reading never accepts too much |
| SeederEntry.StripTrimmedNotes | database/seeds/AnimeThemeSeeder.php:191 | on trimmed notes the replacement yields "" exactly when the whole notes match the pattern, and leaves the notes unchanged otherwise |
| SeederEntry.UpperContainsIff | database/seeds/AnimeThemeSeeder.php:185-190 | searching the upper-cased notes for a word finds it in any mix of letter cases |
| SeederEntry.DeriveEntry | database/seeds/AnimeThemeSeeder.php:178-191 | version is set only for a numeric capture, with its value; nsfw iff the notes mention NSFW in any case; spoiler iff they mention SPOILER; stored notes are "" iff the whole trimmed notes match the flag-only pattern, else unchanged |
| SeederEntry.LowerCaseFlagKept | database/seeds/AnimeThemeSeeder.php:185-191 | notes "nsfw" set the nsfw flag yet are stored unchanged: flag detection ignores case, clearing does not |
| AnimeThemeSeeder.GroupCursor | database/seeds/AnimeThemeSeeder.php:111-120 | a group line with a non-blank trimmed name sets the group and closes theme and entry; a blank one clears the group and keeps theme and entry |
| AnimeThemeSeeder.GroupCursorAsWritten | database/seeds/AnimeThemeSeeder.php:112-118 | as written, every group line sets the group to its trimmed name, even "", and closes theme and entry |
| AnimeThemeSeeder.BlankGroupLineCounterexample | database/seeds/AnimeThemeSeeder.php:113 | a carriage-return-only line closes the current theme as written but keeps it under the intended rule |
| AnimeThemeSeeder.BlankLineLosesLaterVersion | database/seeds/AnimeThemeSeeder.php:111-163 | as written, a blank group line between a theme and a row with a later version makes that row write nothing |
| AnimeThemeSeeder.BlankLineKeepsLaterVersion | database/seeds/AnimeThemeSeeder.php:111-163 | under the intended rule the same row writes its entry and video |
| AnimeThemeSeeder.NewTheme | database/seeds/AnimeThemeSeeder.php:135-158 | a new song, a theme of the current anime and group pointing at it with the numeric sequence if any, a first entry of that theme and its video, all under fresh handles in creation order; the cursor moves to the new theme and entry |
| AnimeThemeSeeder.ExtraEntry | database/seeds/AnimeThemeSeeder.php:160-164 | a new entry of the current theme under a fresh handle and its video; the cursor moves to that entry and keeps the theme |
| AnimeThemeSeeder.ThemeStep | database/seeds/AnimeThemeSeeder.php:134-166 | version absent or 1 starts a new theme; version above 1 with a current theme adds an entry; version 0, or a later version without a theme, does nothing; the two tests never both fire |
| AnimeThemeSeeder.ThemeLineCases | database/seeds/AnimeThemeSeeder.php:135-164 | four writes exactly when the version is absent or 1, two exactly when a theme is current and the version exceeds 1, none otherwise, and then the state is unchanged |
| AnimeThemeSeeder.Step | database/seeds/AnimeThemeSeeder.php:72-174 | a heading writes nothing, clears group, theme and entry, and keeps an anime only on a unique match; synonym, group and theme lines do nothing without a current anime; a theme line under a current anime does what `ThemeStep` states (new theme, extra entry or nothing, by version); a video line attaches to the current entry or does nothing; synonyms become one row per exploded piece; a group line under a current anime writes nothing and moves the cursor by the chosen group rule, either the code as written or the intended one |
| AnimeThemeSeeder.RunAppend | database/seeds/AnimeThemeSeeder.php:53-70 | running two batches of pages in sequence is running them together: only the row counter crosses page boundaries |
| AnimeThemeSeeder.PageStartsFromScratch | database/seeds/AnimeThemeSeeder.php:66-70 | each page's writes are those of that page run alone from the all-null cursor |
| AnimeThemeSeeder.StepSound | database/seeds/AnimeThemeSeeder.php:72-174 | every line preserves the import invariant: handles below the counter, the cursor's theme and entry are created rows of that kind, an entry implies a theme and a theme implies an anime; its writes replay without a dangling reference; this holds under both group rules |
| AnimeThemeSeeder.ImportIsReferentiallySound | database/seeds/AnimeThemeSeeder.php:51-176 | for any year pages and under both group rules, every write refers only to rows created before it and no handle is reused |

Functions without a contract of their own are specified by the lemmas above at the same source lines:
- `AnimeThemeSeeder.RunLines` (the `foreach` over lines, line 72) and `AnimeThemeSeeder.Run` (the `foreach` over pages, line 53) are specified by `RunAppend`, `PageStartsFromScratch`, `RunSound` and `ImportIsReferentiallySound`.
- `AnimeThemeSeeder.HeadingCursor` (lines 78-96) is specified by the heading clause of `Step`.
- `SeederEntry.StripFlagOnly` (line 191) is specified by `StripTrimmedNotes` and `DeriveEntry`.
- `Strings.Numeric` (lines 146-148 and 181-183) is specified by `NumericDecimal` and `LeadingZero`.
- `Strings.Contains` is specified by `ContainsIff` and `UpperContainsIff`.
- `Strings.Lower` is specified by `LowerMemberIff` and `SortIsCaseInsensitive`.

## Left out

- Fetching the year pages, the pause between requests and JSON decoding (AnimeThemeSeeder.php lines 19-61). These are network I/O and randomness. A page is given as its sequence of lines.
- The regular expressions that classify lines and capture their parts. A line arrives already classified as a `Line` value with its captures. The captures of `\d*` and `\d` are digit runs, so `is_numeric`/`intval` are modelled only on ASCII-digit strings. Signs, decimals, exponents and leading blanks cannot occur there.
- `html_entity_decode`: the captures are taken as already decoded.
- Database effects. Row creation, association and attachment become `Action`s. Auto-increment ids become fresh handles from one counter shared by songs, themes and entries.
- The anime lookup by name is an input: the list of matching anime ids. A failing lookup is logged by the source, and it acts like a lookup without a unique match.
- A video lookup that fails in `attach_video_to_entry` is logged and skipped by the source. The model emits the attachment without knowing whether the video exists.
- `ThemeType::getValue` is modelled as the two-valued `ThemeType`.
- Entry flags that are never assigned keep the column default. The entry table's schema is not part of this model.
- Sequence numbers beyond PHP's integer range saturate in `intval`. The model's naturals are unbounded.
- `App\JsonApi\QueryParser` is not part of this model. Its outputs (`hasSearch`/`getSearch`, requested include paths, the sort map, `getPerPageLimit`) are inputs.
- `getIncludePaths(allowed)` is taken to keep the requested paths whose whole dotted path is on the allow-list, in request order.
- The documented limit range [1,100] is an assumption about the parser (`DocumentedLimit`), not something the controllers enforce.
- PHP sort-map keys are unique. The model accepts any token sequence, including two tokens that lower-case to the same field, and then emits both clauses, as the loop would.
- `Str::lower` is modelled as ASCII lower-casing. The model assumes PHP 7.3 or later, where `mb_strtolower` uses full case mapping. Under that mapping no non-ASCII character lower-cases to a single ASCII letter of these allow-lists (U+0130 becomes "i" plus a combining dot), so ASCII lowering accepts the same tokens. Under PHP 7.2's simple mapping U+0130 lower-cases to a plain "i", so a key such as "alİas" would be honoured there; the model does not cover that.
- No tie-breaking order-by on the primary key is added. The controllers emit none, and the model follows the code.
- Laravel Scout search, `paginate` mechanics, eager-load execution, route-model binding and its 404 for `show`, and `toResponse`. These belong to the framework.
- Response shaping (sparse fields, pagination links, resource collections).
- `Invitation` (random token generation, a one-line status check), the invitations migration and the `Artist` relation declarations. These are configuration or rely on randomness and external libraries.
- OpenAPI annotations and auditing traits.

## Findings

| source | as written | input that shows it | evidently intended | confidence | as-written member | corrected member |
|---|---|---|---|---|---|---|
| database/seeds/AnimeThemeSeeder.php:112-118 | `empty()` is applied to the trimmed `Stringable` object. PHP's `empty()` is false for every object, so every group line sets the group (possibly to "") and closes the current theme and entry | a line holding only "\r" (a blank line of a CRLF page matches the group pattern) while group "Season 1", theme 1 and entry 2 are current | a blank trimmed name clears the group and keeps the current theme and entry | medium; not executed | AnimeThemeSeeder.GroupCursorAsWritten | AnimeThemeSeeder.GroupCursor |

Runs take the group rule as a parameter: `Step(AsWritten, …)` uses `GroupCursorAsWritten` and `Step(Intended, …)` uses `GroupCursor`. `BlankLineLosesLaterVersion` and `BlankLineKeepsLaterVersion` show the effect on a whole run: as written, a later-version row after a blank line writes nothing. Under the intended rule it writes its entry and video. The soundness theorem holds under both rules.
