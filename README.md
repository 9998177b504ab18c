# film_api core in Dafny

A verified model of the core of a Go film-catalogue HTTP API (films with
genres, actors and directors, users' watchlists, list queries with paging
and sorting). The model covers:

- the validator and the three validation routines built on it (films, list
  filters, watchlist entries);
- the `"<n> mins"` runtime codec;
- the persistence layer, with each SQL statement modelled as its effect on
  in-memory tables:
  - the films table;
  - the genre, actor and director tables with their junction sets;
  - the watchlist table with its unique (user, film) constraint;
- the dynamic WHERE/placeholder builder of the watchlist list query;
- the query-string helpers, the partial-update merge and the list defaults of
  the handlers;
- the middleware decisions: composition order, Authorization header shape,
  user guards and CORS;
- the JSON logger's level naming and filtering.

Modules, one per file:

| file | module | models |
|---|---|---|
| `wrappers.dfy` | `Wrappers` | `Option`, `Result` |
| `strings.dfy` | `Strings` | `strings.Split`/`Join`, `%d` formatting, `strconv.ParseInt`/`Atoi` |
| `collections.dfy` | `Collections` | distinctness and element sets of sequences |
| `validator.dfy` | `Validation` | `validator.Validator`, `In`, `Unique`, runs of `Check` calls |
| `filters.dfy` | `Filters` | `ValidateFilters` |
| `runtime.dfy` | `Runtime` | `Runtime.UnmarshalJSON` |
| `storeerrors.dfy` | `StoreErrors` | the error values the models return |
| `reference.dfy` | `Reference` | genres/actors/directors tables, `GetOrCreate`, `LinkToFilm`, batch upsert |
| `films.dfy` | `Films` | `ValidateFilm`, runtime in `MarshalJSON`, `FilmModel` Get/Insert/Update/Delete |
| `watchlist.dfy` | `Watchlist` | `ValidateWatchlistEntry`, `WatchlistModel`, the `GetAll` builder |
| `permissions.dfy` | `Permissions` | `Permissions.Include` |
| `helpers.dfy` | `Helpers` | `readString`, `readCSV`, `readInt` |
| `handlers.dfy` | `Handlers` | create conversion, update merge and error mapping, list defaults |
| `middleware.dfy` | `Middleware` | `chainMiddleware`, `authenticate` header check, guards, `enableCORS` |
| `jsonlog.dfy` | `JsonLog` | `Level.String`, `print`, `Write` |

Modelling choices:

- Tables are classes whose fields the operations reassign. Each operation is
  proved against a value-level specification function: `Resolve`, `Link`
  and `Upsert` for the reference tables, and `RunChecks` for a validator run.
  The properties are proved as lemmas about those functions.
- Storage failures are a `fails` flag or a fault step passed in. The current
  time is a parameter. The regular expression `MatchesURL` is a function
  parameter.
- A transaction that fails is rolled back. The tables get their contents
  back, but the id sequences keep any values they handed out, as Postgres
  sequences do. An `INSERT ... ON CONFLICT` draws an id for every row it
  proposes before it finds the conflict, so each name a `GetOrCreate` or a
  batch tries advances the sequence by one, whether or not the name was
  already present. A duplicate watchlist insert also uses up an id.

The database schema is not among the sources. The model assumes this about it:

- The junction tables (`film_genres`, `film_actors`, `film_directors`)
  reference `films` with `ON DELETE CASCADE`. `FilmModel.Delete` runs only
  `DELETE FROM films`, and `RefTable.Unlink` stands for the cascade that
  removes the film's junction rows.
- Each junction table has a unique key on (film, entity). The
  `ON CONFLICT DO NOTHING` clauses rely on it, so a link is a set element
  and linking twice changes nothing.
- Each reference table has a unique key on `name`. The
  `ON CONFLICT (name)` clauses rely on it (the `index` map of `RefTable`).
- `watchlist` defaults `added_at` to the current time and `version` to 1.
  `WatchlistModel.Insert` reads them back through `RETURNING`. The model
  takes the time as a parameter and the version as 1. The unique constraint
  `watchlist_user_film_unique` is on (user_id, film_id).

Where the code and its own comments disagree, the model follows the code:

- `enableCORS`: the comment says a request from an untrusted origin is not
  blocked, but the code answers 403. `EnableCors` returns `Forbidden`.
- `updateFilmHandler`: every error from `Get` becomes a not-found response,
  including storage failures. `UpdateFilmHandler` models it that way.

## Model

| member | source | states |
|---|---|---|
| Validation.Validator.constructor | internals/validator/validator.go:16-18 | a new validator has no errors and is valid |
| Validation.Validator.Valid | internals/validator/validator.go:20-22 | valid exactly when the error map is empty |
| Validation.Validator.AddError | internals/validator/validator.go:24-28 | the key is present afterwards; an existing message is kept, a new key gets this message, no other key changes |
| Validation.AddedError | internals/validator/validator.go:24-28 | keys grow by exactly the given key; old messages are kept; a new key maps to the message |
| Validation.Validator.Check | internals/validator/validator.go:30-34 | a passing check changes nothing; a failing one is AddError |
| Validation.Checked | internals/validator/validator.go:30-34 | the map changes exactly when the check fails and its key is new; only that key is added |
| Validation.In | internals/validator/validator.go:36-44 | true iff the value occurs in the list (so false for an empty list) |
| Validation.Unique | internals/validator/validator.go:54-62 | true iff no two positions hold equal values |
| Collections.DistinctIffCard | internals/validator/validator.go:54-62 | the set of values has as many elements as the slice exactly when the values are pairwise distinct (the map-size test Unique uses) |
| Validation.ChecksOnlyGrow | internals/validator/validator.go:24-34 | a run of checks never removes a key or changes a recorded message |
| Validation.ChecksKeys | internals/validator/validator.go:24-34 | after a run of checks the keys are the old keys plus the keys of the failing checks |
| Validation.ChecksValid | internals/validator/validator.go:20-34 | a run of checks leaves the map empty iff it started empty and every check passed |
| Validation.FirstMessageWins | internals/validator/validator.go:24-28 | the message kept for a key is that of the first failing check with that key |
| Validation.RunChecksAppend | internals/validator/validator.go:30-34 | running two lists of checks one after the other is running their concatenation |
| Filters.ValidateFilters | internals/models/filters.go:12-17 | the validator ends as the five checks of the source, in order, applied to it |
| Filters.ValidIffAcceptable | internals/models/filters.go:12-17 | from an empty validator: valid iff 1 <= page <= 10,000,000, 1 <= page_size <= 100 and sort is in the safelist |
| Filters.ErrorKeys | internals/models/filters.go:13-17 | errors are only added under "page", "page_size" and "sort" |
| Filters.PageTooSmallMessage | internals/models/filters.go:13-14 | a page <= 0 is reported as "must be greater than zero" although the upper-bound check runs later |
| Filters.PageTooLargeMessage | internals/models/filters.go:13-14 | a page above ten million is reported as "must be a maximum of 10 million" |
| Filters.EmptySafelistRejects | internals/models/filters.go:17 | an empty safelist always produces a "sort" error |
| Runtime.UnmarshalJSON | internals/models/runtime.go:14-33 | a non-string is rejected before splitting; on any error the receiver is unchanged; success iff the text parses, and then the receiver is the parsed value |
| Runtime.ParseRuntimeOfMins | internals/models/runtime.go:21-30 | a space-free text followed by " mins" is accepted iff the text is a base-10 int32, with that value |
| Runtime.ParseRuntimeShape | internals/models/runtime.go:21-30 | every accepted text is exactly two space-separated parts, the second "mins" |
| Runtime.AcceptsMinutes | internals/models/runtime.go:21-32 | "120 mins" gives 120 |
| Runtime.RejectsMissingSpace | internals/models/runtime.go:21-24 | "120" and "120mins" are format errors |
| Runtime.RejectsNonNumber | internals/models/runtime.go:27-30 | "abc mins" is a format error |
| Runtime.RejectsOtherUnit | internals/models/runtime.go:21-24 | "120 seconds" is a format error |
| Runtime.RejectsNumber | internals/models/runtime.go:15-18 | a JSON number is rejected as not a string, with the receiver unchanged |
| Strings.Split | internals/models/runtime.go:21 | strings.Split: count of separators + 1 parts, none containing the separator, and joining them gives the input back |
| Strings.ParseFormat | internals/models/runtime.go:27 | ParseInt of the %d text of any value of the width gives that value |
| Films.RuntimeText | internals/models/films.go:63-65 | the runtime text is empty exactly when the runtime is 0 |
| Films.RuntimeRoundTrip | internals/models/films.go:63-65 | for every nonzero int32, unmarshalling the text MarshalJSON emits gives the value back |
| Films.ZeroRuntimeIsNotReadBack | internals/models/films.go:63-65 | the empty text emitted for 0 is rejected by UnmarshalJSON |
| Films.ValidateFilm | internals/models/films.go:45-58 | the validator ends as the film's checks (title, year, runtime, genres, image, in source order) applied to it |
| Films.FilmValidIffAcceptable | internals/models/films.go:45-58 | from an empty validator: valid iff title non-empty and <= 500 long, 1888 <= year <= current year, runtime > 0, 1-5 distinct genres, image URL matches |
| Films.FilmErrorKeys | internals/models/films.go:45-58 | errors are only added under title, year, runtime, genres and image |
| Films.MissingYearMessage | internals/models/films.go:48-50 | a year of 0 is reported as "must be provided" |
| Reference.Resolve | internals/models/genres.go:14-36 | GetOrCreate: the returned id's row has the name; an existing name keeps its id and rows, index and links are unchanged; a new name adds exactly one row with a fresh id; either way the sequence advances by one |
| Reference.OneRowPerName | internals/models/genres.go:18-27 | no two rows of a reference table share a name |
| Reference.ResolveTwice | internals/models/genres.go:18-27 | resolving a name twice returns the same id, and the second call changes nothing but the sequence |
| Reference.Link | internals/models/genres.go:38-48 | LinkToFilm: the pair is in the junction set afterwards and nothing else is added |
| Reference.RefTable.GetOrCreate | internals/models/genres.go:14-36 | the table and the returned entity are those of Resolve; the entity has the requested name |
| Reference.RefTable.LinkToFilm | internals/models/actors.go:38-48 | succeeds iff the entity row exists, and then the state is that of Link; otherwise nothing changes |
| Reference.RefTable.AddName | internals/models/directors.go:24-58 | the effect of GetOrCreate followed by LinkToFilm for one name |
| Reference.UpsertEffect | internals/models/films.go:368-442 | the batch keeps every row and id, indexes and links every supplied name, adds no other names and only links this film |
| Reference.UpsertIdempotent | internals/models/films.go:368-442 | repeating a batch with the same names adds no row and no link; only the sequence advances, by one per name |
| Reference.UpsertSettled | internals/models/films.go:368-442 | a batch whose names all exist and are linked leaves rows, index and links as they were, and advances the sequence by one per name |
| Reference.LinkedNamesAfterUpsert | internals/models/films.go:368-442 | after a batch the film is linked to its earlier names plus the supplied ones |
| Reference.UpsertOtherFilm | internals/models/films.go:368-442 | a batch for one film does not change the names linked to any other film |
| Reference.RefTable.BatchInsert | internals/models/films.go:370-391 | one ON CONFLICT batch: succeeds iff the names are distinct, and then the table is the upsert of the names; a failed batch leaves rows, index and links unchanged |
| Reference.RefTable.Rollback | internals/models/films.go:148 | rows, index and links return to the saved state; the id sequence does not |
| Reference.RefTable.Unlink | internals/models/films.go:228-237 | deleting a film removes exactly its junction rows (by the assumed ON DELETE CASCADE, see above) |
| Reference.RefTable.NamesLinkedTo | internals/models/films.go:88-90 | the array_agg subquery: each name linked to the film, once |
| Reference.MarshalDirectorsAreNames | internals/models/directors.go:14-16 | a director is serialised as its name string only |
| Reference.MakeEntities | cmd/api/handlers.go:89-104 | the loop building entities from names: same length and order, Name[i] = input[i], id 0 |
| Reference.CollectNames | internals/models/films.go:370-376 | the loop collecting names from entities: same length and order |
| Reference.NamesOfFromNames | cmd/api/handlers.go:89-104 | collecting the names of entities built from names gives the names back |
| Films.FilmModel.constructor | internals/models/films.go:36-43 | an empty film table with three distinct, empty reference tables (no rows, no index entries, no links, sequences at 1) |
| Films.FilmModel.Get | internals/models/films.go:80-141 | id < 1 is not found without a query; otherwise found iff the row exists; the film carries the stored row and, for each kind, every linked name once |
| Films.ListLinked | internals/models/films.go:125-138 | the entity list for one kind holds every name linked to the film once, with id 0 |
| Films.FilmModel.Insert | internals/models/films.go:143-166 | one new row with a fresh id and version 1, the id written back; on success every name is upserted and the film is linked to exactly its names; any failure rolls back every table |
| Films.FilmModel.InsertRow | internals/models/films.go:154-155 | the INSERT statement: the row under the next sequence id, which was unused |
| Films.FilmModel.RelateOrRollBack | internals/models/films.go:160-165 | after the row, the relations then commit; on failure the film row and the relation tables are restored |
| Films.FilmModel.BatchInsertRelations | internals/models/films.go:368-442 | directors, actors, genres in that order; succeeds iff every batch does, and then each table is its upsert |
| Films.FilmModel.RollbackAll | internals/models/films.go:148 | the films table and the three relation tables return to the saved contents |
| Films.FilmModel.Update | internals/models/films.go:168-209 | compare-and-swap on (id, version): a missing row or another version is an edit conflict with nothing changed; on success the row is replaced with version + 1, the new version written back, and links only added |
| Films.FilmModel.Delete | internals/models/films.go:211-239 | id < 1 and a missing row are not found; otherwise exactly that row and its junction rows go |
| Watchlist.ValidateWatchlistEntry | internals/models/watchlist.go:32-45 | the validator ends as the entry's checks applied to it; the returned entry is the stamped one |
| Watchlist.EntryValidIffAcceptable | internals/models/watchlist.go:32-39 | from an empty validator: valid iff film_id > 0, 1 <= priority <= 10, notes <= 1000 long, and a given rating is 1-10 |
| Watchlist.NoRatingNoRatingError | internals/models/watchlist.go:37-39 | without a rating no "rating" error is recorded |
| Watchlist.Stamped | internals/models/watchlist.go:41-44 | a watched entry without a watch time gets now; an existing watch time is kept; no other field changes |
| Watchlist.WatchlistModel.Insert | internals/models/watchlist.go:47-78 | a duplicate (user, film) pair is ErrDuplicateWatchlistEntry with no entry added (the id sequence still advances); otherwise one new row with a fresh id, the insertion time and version 1 (the assumed column defaults, see above), all written back |
| Watchlist.WatchlistModel.PairsUnique | internals/models/watchlist.go:67-72 | no two entries share a (user, film) pair |
| Watchlist.WatchlistModel.Get | internals/models/watchlist.go:80-153 | entryId < 1 is not found; found iff the entry exists and belongs to the user; never another user's entry |
| Watchlist.Edited | internals/models/watchlist.go:262-267 | the SET clause: the editable fields from the request, version + 1, id/user/film/added time kept |
| Watchlist.WatchlistModel.Update | internals/models/watchlist.go:261-294 | succeeds iff id, user and version all match, then the row is Edited and the new version written back; otherwise ErrEditConflict with nothing changed |
| Watchlist.WatchlistModel.Delete | internals/models/watchlist.go:296-324 | entryId < 1 is not found; removes exactly the entry iff it belongs to the user, otherwise not found |
| Watchlist.WatchlistModel.CheckExists | internals/models/watchlist.go:326-341 | true iff some entry has that user and film |
| Watchlist.WhereConds | internals/models/watchlist.go:156-170 | user_id is always $1; a watched condition iff watched is given, a priority condition iff priority > 0; placeholders numbered 1, 2, ... |
| Watchlist.BuildListQuery | internals/models/watchlist.go:156-187 | the WHERE text renders those conditions; each placeholder's argument is its value; LIMIT/OFFSET are $argCount+1 and $argCount+2; len(args) = argCount + 2 |
| Watchlist.UserCondText | internals/models/watchlist.go:156 | the first condition reads "w.user_id = $1" |
| Permissions.Include | internals/models/permissions.go:12-20 | true iff the code is an element of the list, so false for an empty list |
| Permissions.IncludeAdded | internals/models/permissions.go:13-16 | a code added to a list is included |
| Permissions.IncludeOther | internals/models/permissions.go:13-19 | a code different from every element is not included |
| Helpers.ReadString | cmd/api/helpers.go:123-130 | the default when the value is absent or "", otherwise the value |
| Helpers.ReadCSV | cmd/api/helpers.go:132-139 | the default when the value is ""; otherwise commas + 1 parts without commas, which joined with "," give the value back |
| Helpers.ReadInt | cmd/api/helpers.go:141-154 | the default and no error for ""; the parsed value for a decimal integer; otherwise the default and "must be an integer value" added under the key (first message wins) |
| Helpers.IntParamErrors | cmd/api/helpers.go:141-154 | "must be an integer value" is recorded under the key exactly when the value is present and not an integer; existing messages are kept and no other key is added |
| Helpers.IntParamAbsent | cmd/api/helpers.go:141-145 | an absent key yields the default and no error |
| Helpers.IntParamFormatted | cmd/api/helpers.go:147-153 | a 64-bit integer in decimal is read back as itself |
| Helpers.IntParamRejects | cmd/api/helpers.go:147-151 | a value not starting with a sign or digit yields the default and an error |
| Handlers.FilmFromInput | cmd/api/handlers.go:79-104 | scalar fields copied; each name list becomes entities of the same length and order with Name[i] = input[i]; id and version 0 |
| Handlers.Patched | cmd/api/handlers.go:163-199 | id and version are never changed; a replaced list has the input's names in order |
| Handlers.PatchChangesGivenFields | cmd/api/handlers.go:163-199 | a field changes to the given value iff its input is given; otherwise it keeps the fetched value |
| Handlers.EmptyPatchKeeps | cmd/api/handlers.go:163-199 | a request with no fields leaves the film unchanged |
| Handlers.PatchIdempotent | cmd/api/handlers.go:163-199 | applying the same request twice equals applying it once |
| Handlers.ApplyPatch | cmd/api/handlers.go:163-199 | the field-by-field merge computes Patched |
| Handlers.UpdateErrorResponse | cmd/api/handlers.go:202-211 | ErrEditConflict maps to the edit-conflict response and any other error to a server error |
| Handlers.UpdateFilmHandler | cmd/api/handlers.go:130-217 | a bad id or any Get error is not found, with nothing changed; for an existing film the answer is the film Get returned, merged with the request (`Patched`), at version + 1, exactly when the write-back gets through, and a server error otherwise; the fetched version is the expected one, so with no concurrent writer there is never an edit conflict; on success the row holds the merged film and each reference table links the old names plus the merged names; on failure the tables are as before |
| Handlers.WriteBack | cmd/api/handlers.go:201-211 | Update of a film whose version matches answers with the film at version + 1 exactly when the transaction and every batch get through, and a server error otherwise; success writes the row and adds the links, failure leaves the tables as they were |
| Handlers.ReadListInput | cmd/api/handlers.go:256-265 | title, lists, page (default 1), page_size (default 20) and sort read by the helpers; the safelist is the fixed ten keys; the error map is readInt's for page then page_size, so a present non-integer page or page_size records "must be an integer value" under its key (unless it already has a message), and no other key is added |
| Handlers.ListDefaults | cmd/api/handlers.go:262-264 | with no parameters: page 1, page_size 20, no errors, empty sort list |
| Handlers.SortSafelistShape | cmd/api/handlers.go:265 | the safelist holds ten keys: five columns, each also with a leading "-" |
| Middleware.ChainMiddleware | cmd/api/middleware.go:17-30 | no middleware returns the handler; otherwise the result is Compose, middleware[0] outermost |
| Middleware.ComposeAppend | cmd/api/middleware.go:22-29 | composing a + b wraps a around the composition of b |
| Middleware.ChainOrder | cmd/api/middleware.go:22-29 | with recording middleware the nesting is 0, 1, ..., n-1, then the handler |
| Middleware.AuthenticateHeader | cmd/api/middleware.go:48-61 | anonymous iff the header is empty; a token only for "Bearer <token>" with no further space |
| Middleware.AcceptsBearer | cmd/api/middleware.go:55-61 | every "Bearer <token>" without spaces in the token reaches the token check with that token |
| Middleware.RejectsOtherShapes | cmd/api/middleware.go:55-58 | a header without exactly one space, or with another scheme, is invalid credentials |
| Middleware.RequireAuthenticatedUser | cmd/api/middleware.go:138-147 | passes iff the user is not anonymous; otherwise authentication required |
| Middleware.RequireActivatedUser | cmd/api/middleware.go:149-162 | passes iff authenticated and activated; anonymous is authentication required before activation is looked at |
| Middleware.RequirePermission | cmd/api/middleware.go:229-247 | passes iff activated and the looked-up codes include the code; the activation guard's refusal comes first |
| Middleware.AnyAdmits | cmd/api/middleware.go:189-218 | the scan finds an entry iff some trusted entry is "*" or equals the origin |
| Middleware.EnableCors | cmd/api/middleware.go:173-227 | no Origin passes through; an admitting entry echoes the origin, and a preflight (OPTIONS with Access-Control-Request-Method) gets 200 with the allowed methods "OPTIONS, GET, POST, PUT, PATCH, DELETE", headers "Authorization, Content-Type" and max age "3600"; otherwise 403 |
| Middleware.NoTrustedOriginsForbid | cmd/api/middleware.go:186-224 | with no trusted origins every cross-origin request gets 403 |
| Middleware.WildcardAdmitsAll | cmd/api/middleware.go:190-203 | a "*" entry admits every origin |
| JsonLog.LevelString | internals/jsonlog/jsonlog.go:21-36 | INFO, ERROR, FATAL for the three named levels, "" for every other |
| JsonLog.LevelOrder | internals/jsonlog/jsonlog.go:14-19 | Info < Error < Fatal < Off; Off silences and Info admits every named level |
| JsonLog.MakeRecord | internals/jsonlog/jsonlog.go:69-85 | the record has the level's name and the message; it carries a trace iff level >= Error |
| JsonLog.Logger.constructor | internals/jsonlog/jsonlog.go:44-49 | a logger with the minimum level and no output |
| JsonLog.Logger.Print | internals/jsonlog/jsonlog.go:64-98 | below the minimum level nothing is written; otherwise exactly one record is appended |
| JsonLog.Logger.PrintInfo | internals/jsonlog/jsonlog.go:51-53 | prints at the Info level |
| JsonLog.Logger.PrintError | internals/jsonlog/jsonlog.go:55-57 | prints at the Error level |
| JsonLog.Logger.Write | internals/jsonlog/jsonlog.go:100-102 | logs the message at the Error level with no properties, so with a trace |

## Left out

- Database driver, SQL text and Postgres mechanics: only each statement's
  effect on abstract tables is modelled. This covers contexts, timeouts,
  `pq.Array`, the `UNION ALL ... LIMIT 1` and CTE forms, and driver errors,
  which become a failure flag or a fault step.
- `FilmModel.GetAll` (the full-text title predicate, array filters, sort
  column, count window and metadata): these depend on Postgres semantics and
  on helpers (`sortColumn`, `limit`, `offset`, `calculateMetadata`) that are
  not part of this model.
- The watchlist `GetAll` query itself: only the WHERE/placeholder builder is
  modelled. Limit and offset are parameters.
- The film join of watchlist `Get`, and the foreign keys of watchlist rows
  to users and films: users and their tables are not part of this model.
- The order of names `Get` returns (array_agg order is not defined): lists
  are specified as sets of distinct names.
- Reference.RefTable.LinkToFilm: only the entity side of the foreign key is
  checked. The film side is guaranteed by the callers, which link only films
  whose row exists.
- Reference.RefTable.BatchInsert: a batch that repeats a name fails, since
  Postgres rejects an ON CONFLICT DO UPDATE touching a row twice. Callers are
  not required to pass distinct names.
- Films.ValidateFilm: the nil-genres check is left out. Dafny sequences
  have no nil, and an empty list already fails the "at least 1 genre" check.
- Lengths of titles and notes are counted in characters. The Go code counts
  bytes of UTF-8.
- Film versions and ids are unbounded integers: int32/int64 overflow of the
  version counter is not modelled.
- `Film.Rating` is a float32. It is carried as an opaque 32-bit value with
  no arithmetic.
- `MatchesURL`/`MatchesEmail` are regular expressions: `MatchesURL` is a
  function parameter.
- Token validation, the user lookup of `authenticate`, and the lookup of a
  user's permissions: they depend on tables not part of this model. The
  permission lookup's result is a parameter.
- `rateLimit`, `recoverPanic`, `ensureTrailingSlash` and the logger mutex
  (concurrency and plumbing).
- JSON encoding and decoding (`readJSON`, `writeJSON`, `json.Marshal`), the
  error responses and the response headers other than the CORS ones. A log
  record stands for one newline-terminated JSON line.
- JsonLog.Logger.Print: the writer is an output sequence that always
  accepts a record. A failing writer is not modelled, so the error that
  `print` and `Write` pass on from `out.Write` never occurs, and the byte
  count is a flag saying whether a record was written.
- `PrintFatal`: it ends the process.
- The unmarshal-failure fallback line of `print`: marshalling a record of
  strings cannot fail.
- The validation step of `ListFilmsHandler`: it sets a `SortValues` field
  the shown `Filters` struct does not have (that struct has one `Sort`
  string), so only the reading of the query and the defaults are modelled.
- Handlers.UpdateFilmHandler: the JSON body decoding and its bad-request
  response are left out. The request is given as a decoded patch.
- Server setup, routes, certificates and the data loading in `main.go`.
