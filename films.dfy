/** internals/models/films.go: the film record, its validation, the runtime
    field of its JSON form, and the film table with its three reference
    tables. Each SQL statement is modelled by its effect on the tables; a
    transaction that fails is rolled back. */
module Films {
  import opened Wrappers
  import opened Collections
  import opened Strings
  import opened Runtime
  import opened Validation
  import opened Reference
  import opened StoreErrors

  /** A float32 rating, carried as its bits: the model does no arithmetic on it. */
  datatype Rating = Rating(bits: bv32)

  datatype Film = Film(
    id: int,
    title: string,
    year: Int32,
    runtime: Int32,
    genres: seq<Genre>,
    directors: seq<Director>,
    actors: seq<Actor>,
    rating: Rating,
    description: string,
    img: string,
    version: int)

  /** One row of the films table. */
  datatype FilmRow = FilmRow(
    title: string,
    year: Int32,
    runtime: Int32,
    rating: Rating,
    description: string,
    img: string,
    version: int)

  /** The row a statement writes for a film, with the given version. */
  function RowOf(f: Film, version: int): FilmRow
  {
    FilmRow(f.title, f.year, f.runtime, f.rating, f.description, f.img, version)
  }

  // ---------------------------------------------------------------------
  // Validation

  /** The checks ValidateFilm makes, in source order, with the current year
      and the URL pattern as parameters, grouped by the field they look at.
      The check that Genres is not nil is not among them: see the README. */
  ghost function FilmChecks(f: Film, currentYear: Int32, matchesURL: string -> bool): seq<CheckCall>
  {
    TitleChecks(f) + YearChecks(f, currentYear) + RuntimeChecks(f) + GenreChecks(f) + ImageChecks(f, matchesURL)
  }

  function TitleChecks(f: Film): seq<CheckCall>
  {
    [ CheckCall(f.title != "", "title", "must be provided"),
      CheckCall(|f.title| <= 500, "title", "must not be more than 500 bytes long") ]
  }

  function YearChecks(f: Film, currentYear: Int32): seq<CheckCall>
  {
    [ CheckCall(f.year != 0, "year", "must be provided"),
      CheckCall(f.year >= 1888, "year", "must be greater than 1888"),
      CheckCall(f.year <= currentYear, "year", "must not be in the future") ]
  }

  function RuntimeChecks(f: Film): seq<CheckCall>
  {
    [ CheckCall(f.runtime != 0, "runtime", "must be provided"),
      CheckCall(f.runtime > 0, "runtime", "must be a positive integer") ]
  }

  ghost function GenreChecks(f: Film): seq<CheckCall>
  {
    [ CheckCall(|f.genres| >= 1, "genres", "must contain at least 1 genre"),
      CheckCall(|f.genres| <= 5, "genres", "must not contain more than 5 genres"),
      CheckCall(Distinct(f.genres), "genres", "must not contain duplicate values") ]
  }

  function ImageChecks(f: Film, matchesURL: string -> bool): seq<CheckCall>
  {
    [ CheckCall(matchesURL(f.img), "image", "Must be an URL") ]
  }

  /** What a valid film looks like, without the redundant checks. */
  ghost predicate FilmAcceptable(f: Film, currentYear: Int32, matchesURL: string -> bool)
  {
    && 1 <= |f.title| <= 500
    && 1888 <= f.year <= currentYear
    && f.runtime > 0
    && 1 <= |f.genres| <= 5
    && Distinct(f.genres)
    && matchesURL(f.img)
  }

  method ValidateFilm(v: Validator, f: Film, currentYear: Int32, matchesURL: string -> bool)
    modifies v
    ensures v.errors == RunChecks(old(v.errors), FilmChecks(f, currentYear, matchesURL))
  {
    ghost var e0 := v.errors;
    CheckTitle(v, f);
    ghost var e1 := v.errors;
    CheckYear(v, f, currentYear);
    ghost var e2 := v.errors;
    CheckRuntime(v, f);
    ghost var e3 := v.errors;
    CheckGenres(v, f);
    ghost var e4 := v.errors;
    v.Check(matchesURL(f.img), "image", "Must be an URL");
    var t, y, r, g, i := TitleChecks(f), YearChecks(f, currentYear), RuntimeChecks(f), GenreChecks(f), ImageChecks(f, matchesURL);
    RunChecksAppend(e0, t, y);
    RunChecksAppend(e0, t + y, r);
    RunChecksAppend(e0, t + y + r, g);
    RunChecksAppend(e0, t + y + r + g, i);
    assert i[1..] == [];
  }

  /** The title lines of ValidateFilm. */
  method CheckTitle(v: Validator, f: Film)
    modifies v
    ensures v.errors == RunChecks(old(v.errors), TitleChecks(f))
  {
    ghost var cs := TitleChecks(f);
    ghost var e0 := v.errors;
    v.Check(f.title != "", "title", "must be provided");
    ghost var e1 := v.errors;
    v.Check(|f.title| <= 500, "title", "must not be more than 500 bytes long");
    RunChecksCons(e0, cs);
    RunChecksCons(e1, cs[1..]);
    assert cs[1..][1..] == cs[2..];
    assert cs[2..] == [];
  }

  /** The year lines of ValidateFilm. */
  method CheckYear(v: Validator, f: Film, currentYear: Int32)
    modifies v
    ensures v.errors == RunChecks(old(v.errors), YearChecks(f, currentYear))
  {
    ghost var cs := YearChecks(f, currentYear);
    ghost var e0 := v.errors;
    v.Check(f.year != 0, "year", "must be provided");
    ghost var e1 := v.errors;
    v.Check(f.year >= 1888, "year", "must be greater than 1888");
    ghost var e2 := v.errors;
    v.Check(f.year <= currentYear, "year", "must not be in the future");
    RunChecksCons(e0, cs);
    RunChecksCons(e1, cs[1..]);
    assert cs[1..][1..] == cs[2..];
    RunChecksCons(e2, cs[2..]);
    assert cs[2..][1..] == cs[3..];
    assert cs[3..] == [];
  }

  /** The runtime lines of ValidateFilm. */
  method CheckRuntime(v: Validator, f: Film)
    modifies v
    ensures v.errors == RunChecks(old(v.errors), RuntimeChecks(f))
  {
    ghost var cs := RuntimeChecks(f);
    ghost var e0 := v.errors;
    v.Check(f.runtime != 0, "runtime", "must be provided");
    ghost var e1 := v.errors;
    v.Check(f.runtime > 0, "runtime", "must be a positive integer");
    RunChecksCons(e0, cs);
    RunChecksCons(e1, cs[1..]);
    assert cs[1..][1..] == cs[2..];
    assert cs[2..] == [];
  }

  /** The genre lines of ValidateFilm. */
  method CheckGenres(v: Validator, f: Film)
    modifies v
    ensures v.errors == RunChecks(old(v.errors), GenreChecks(f))
  {
    ghost var cs := GenreChecks(f);
    ghost var e0 := v.errors;
    v.Check(|f.genres| >= 1, "genres", "must contain at least 1 genre");
    ghost var e1 := v.errors;
    v.Check(|f.genres| <= 5, "genres", "must not contain more than 5 genres");
    ghost var e2 := v.errors;
    var unique := Unique(f.genres);
    v.Check(unique, "genres", "must not contain duplicate values");
    RunChecksCons(e0, cs);
    RunChecksCons(e1, cs[1..]);
    assert cs[1..][1..] == cs[2..];
    RunChecksCons(e2, cs[2..]);
    assert cs[2..][1..] == cs[3..];
    assert cs[3..] == [];
  }

  /** Starting from an empty validator, ValidateFilm leaves it valid exactly
      when the film is acceptable. */
  lemma FilmValidIffAcceptable(f: Film, currentYear: Int32, matchesURL: string -> bool)
    ensures RunChecks(map[], FilmChecks(f, currentYear, matchesURL)) == map[]
        <==> FilmAcceptable(f, currentYear, matchesURL)
  {
    var checks := FilmChecks(f, currentYear, matchesURL);
    ChecksValid(map[], checks);
    if FilmAcceptable(f, currentYear, matchesURL) {
      forall i | 0 <= i < |checks| ensures checks[i].ok { }
    } else {
      assert exists i :: 0 <= i < |checks| && !checks[i].ok by {
        if f.title == "" { assert !checks[0].ok; }
        else if |f.title| > 500 { assert !checks[1].ok; }
        else if f.year < 1888 { assert !checks[3].ok; }
        else if f.year > currentYear { assert !checks[4].ok; }
        else if f.runtime <= 0 { assert !checks[6].ok; }
        else if |f.genres| < 1 { assert !checks[7].ok; }
        else if |f.genres| > 5 { assert !checks[8].ok; }
        else if !Distinct(f.genres) { assert !checks[9].ok; }
        else { assert !checks[10].ok; }
      }
    }
  }

  /** Errors are only ever recorded under the five field names. */
  lemma FilmErrorKeys(errors: map<string, string>, f: Film, currentYear: Int32, matchesURL: string -> bool)
    ensures RunChecks(errors, FilmChecks(f, currentYear, matchesURL)).Keys
         <= errors.Keys + {"title", "year", "runtime", "genres", "image"}
  {
    var checks := FilmChecks(f, currentYear, matchesURL);
    ChecksKeys(errors, checks);
    forall i | 0 <= i < |checks| ensures checks[i].key in {"title", "year", "runtime", "genres", "image"} { }
  }

  /** A missing year is reported as missing, not as too early, because the
      first message recorded for a key wins. */
  lemma MissingYearMessage(f: Film, currentYear: Int32, matchesURL: string -> bool)
    requires f.year == 0
    ensures var r := RunChecks(map[], FilmChecks(f, currentYear, matchesURL));
      "year" in r && r["year"] == "must be provided"
  {
    FirstMessageWins(map[], FilmChecks(f, currentYear, matchesURL), 2);
  }

  // ---------------------------------------------------------------------
  // The runtime field of Film.MarshalJSON

  /** The runtime as Film.MarshalJSON emits it: "<n> mins", or the empty
      string for a zero runtime. */
  function RuntimeText(r: Int32): (s: string)
    ensures s == "" <==> r == 0
  {
    if r == 0 then "" else FormatInt(r) + " mins"
  }

  /** Every nonzero runtime survives Film.MarshalJSON followed by
      Runtime.UnmarshalJSON, whatever value the target held before. */
  lemma RuntimeRoundTrip(n: Int32, current: Int32)
    requires n != 0
    ensures UnmarshalJSON(current, JsonString(RuntimeText(n))) == (n, None)
  {
    FormatIntHasNoSpace(n);
    ParseRuntimeOfMins(FormatInt(n));
    ParseFormat(n, Bits32);
  }

  /** A zero runtime is emitted as "", which Runtime.UnmarshalJSON rejects:
      the round trip holds only for nonzero runtimes. */
  lemma ZeroRuntimeIsNotReadBack(current: Int32)
    ensures UnmarshalJSON(current, JsonString(RuntimeText(0))) == (current, Some(InvalidRuntimeFormat))
  {
    assert Split("", ' ') == [""];
  }

  // ---------------------------------------------------------------------
  // The film table

  /** The statements of a transaction, any one of which may fail with a
      storage error. */
  datatype Step = Begin | FilmStatement | DirectorBatch | ActorBatch | GenreBatch | Commit

  /** Whether batchInsertRelations gets through: each non-empty list is sent
      as one statement, which fails on a storage error or when a name occurs
      twice in it; an empty list sends nothing and so cannot fail. */
  ghost predicate BatchSucceeds(f: Film, fault: Option<Step>)
  {
    && (|f.directors| > 0 ==> fault != Some(DirectorBatch) && Distinct(NamesOf(f.directors)))
    && (|f.actors| > 0 ==> fault != Some(ActorBatch) && Distinct(NamesOf(f.actors)))
    && (|f.genres| > 0 ==> fault != Some(GenreBatch) && Distinct(NamesOf(f.genres)))
  }

  /** The rows, unique index and links of a reference table, without its id
      sequence (which a rollback does not restore). */
  function Contents(s: RefState): (map<nat, string>, map<string, nat>, set<JunctionRow>)
  {
    (s.rows, s.index, s.links)
  }

  /** The films table (ids from a sequence) with the genre, actor and
      director tables and their junction tables. */
  class FilmModel {
    var films: map<int, FilmRow>
    var nextFilmId: int
    const genres: RefTable
    const actors: RefTable
    const directors: RefTable

    /** Every junction row points at an existing film. */
    ghost predicate LinksToFilms(links: set<JunctionRow>)
      reads this
    {
      forall l :: l in links ==> l.0 in films
    }

    ghost predicate Valid()
      reads this, genres, actors, directors
    {
      && genres != actors && genres != directors && actors != directors
      && genres.Valid() && actors.Valid() && directors.Valid()
      && 1 <= nextFilmId
      && (forall id :: id in films ==> 1 <= id < nextFilmId)
      && LinksToFilms(genres.links) && LinksToFilms(actors.links) && LinksToFilms(directors.links)
    }

    constructor ()
      ensures Valid() && films == map[] && nextFilmId == 1
      ensures fresh(genres) && fresh(actors) && fresh(directors)
      ensures genres.State() == RefState(map[], map[], 1, {})
      ensures actors.State() == RefState(map[], map[], 1, {})
      ensures directors.State() == RefState(map[], map[], 1, {})
    {
      films := map[];
      nextFilmId := 1;
      genres := new RefTable();
      actors := new RefTable();
      directors := new RefTable();
    }

    /** Get(id): an id below one is not found without a query; otherwise the
        film row with the names linked to it. Each list holds every linked
        name once, as an entity with id zero; its order is not modelled. */
    method Get(id: int, fails: bool) returns (r: Result<Film, StoreError>)
      requires Valid()
      ensures id < 1 ==> r == Err(RecordNotFound)
      ensures id >= 1 && fails ==> r == Err(StorageFailure)
      ensures id >= 1 && !fails ==> (r.Ok? <==> id in films) && (r.Err? ==> r.error == RecordNotFound)
      ensures r.Ok? ==>
        && id in films && r.value.id == id && RowOf(r.value, r.value.version) == films[id]
        && Listed(r.value.genres, genres.State(), id)
        && Listed(r.value.actors, actors.State(), id)
        && Listed(r.value.directors, directors.State(), id)
    {
      if id < 1 {
        return Err(RecordNotFound);
      }
      if fails {
        return Err(StorageFailure);
      }
      if id !in films {
        return Err(RecordNotFound);
      }
      var row := films[id];
      var g := ListLinked(genres, id);
      var a := ListLinked(actors, id);
      var d := ListLinked(directors, id);
      r := Ok(Film(id, row.title, row.year, row.runtime, g, d, a, row.rating, row.description, row.img, row.version));
    }

    /** batchInsertRelations: directors, then actors, then genres, each
        non-empty list in one statement. On success each table is the batch
        applied to it; on failure the caller rolls back. */
    method BatchInsertRelations(filmId: int, f: Film, fault: Option<Step>) returns (ok: bool)
      requires Valid() && filmId in films
      modifies genres, actors, directors
      ensures Valid()
      ensures ok <==> BatchSucceeds(f, fault)
      ensures ok ==> directors.State() == Upsert(old(directors.State()), filmId, NamesOf(f.directors))
      ensures ok ==> actors.State() == Upsert(old(actors.State()), filmId, NamesOf(f.actors))
      ensures ok ==> genres.State() == Upsert(old(genres.State()), filmId, NamesOf(f.genres))
      ensures old(directors.nextId) <= directors.nextId
      ensures old(actors.nextId) <= actors.nextId
      ensures old(genres.nextId) <= genres.nextId
    {
      ok := Batch(directors, filmId, f.directors, fault == Some(DirectorBatch));
      if !ok {
        return;
      }
      ok := Batch(actors, filmId, f.actors, fault == Some(ActorBatch));
      if !ok {
        return;
      }
      ok := Batch(genres, filmId, f.genres, fault == Some(GenreBatch));
    }

    /** One of the three blocks of batchInsertRelations. */
    method Batch(t: RefTable, filmId: int, es: seq<Entity>, fails: bool) returns (ok: bool)
      requires Valid() && filmId in films
      requires t == genres || t == actors || t == directors
      modifies t
      ensures Valid()
      ensures ok <==> (|es| > 0 ==> !fails && Distinct(NamesOf(es)))
      ensures ok ==> t.State() == Upsert(old(t.State()), filmId, NamesOf(es))
      ensures old(t.nextId) <= t.nextId
    {
      if |es| == 0 {
        return true;
      }
      var names := CollectNames(es);
      assert names == NamesOf(es);
      if fails {
        return false;
      }
      ghost var s0 := t.State();
      ok := t.BatchInsert(filmId, names);
      UpsertEffect(s0, filmId, names);
    }

    /** Insert(film): the film row gets the next id and version 1, the id is
        written back into the film, then the relations are inserted. Any
        failure rolls the whole transaction back; an id drawn from the
        sequence is not given back. */
    method Insert(film: Film, fault: Option<Step>) returns (out: Film, err: Option<StoreError>)
      requires Valid()
      modifies this, genres, actors, directors
      ensures Valid()
      ensures fault == Some(Begin) || fault == Some(FilmStatement) ==>
        out == film && err == Some(StorageFailure) && nextFilmId == old(nextFilmId)
      ensures fault != Some(Begin) && fault != Some(FilmStatement) ==>
        out == film.(id := old(nextFilmId)) && old(nextFilmId) !in old(films) && nextFilmId == old(nextFilmId) + 1
      ensures err.None? <==>
        fault != Some(Begin) && fault != Some(FilmStatement) && fault != Some(Commit) && BatchSucceeds(film, fault)
      ensures err.Some? ==> err == Some(StorageFailure)
      ensures err.None? ==>
        && films == old(films)[out.id := RowOf(film, 1)]
        && directors.State() == Upsert(old(directors.State()), out.id, NamesOf(film.directors))
        && actors.State() == Upsert(old(actors.State()), out.id, NamesOf(film.actors))
        && genres.State() == Upsert(old(genres.State()), out.id, NamesOf(film.genres))
        && LinkedNames(genres.State(), out.id) == Elements(NamesOf(film.genres))
        && LinkedNames(actors.State(), out.id) == Elements(NamesOf(film.actors))
        && LinkedNames(directors.State(), out.id) == Elements(NamesOf(film.directors))
      ensures err.Some? ==>
        && films == old(films)
        && Contents(genres.State()) == Contents(old(genres.State()))
        && Contents(actors.State()) == Contents(old(actors.State()))
        && Contents(directors.State()) == Contents(old(directors.State()))
    {
      out := film;
      if fault == Some(Begin) || fault == Some(FilmStatement) {
        return film, Some(StorageFailure);
      }
      var films0, g0, a0, d0 := films, genres.State(), actors.State(), directors.State();
      NoLinksYet(g0, nextFilmId);
      NoLinksYet(a0, nextFilmId);
      NoLinksYet(d0, nextFilmId);
      var id := InsertRow(RowOf(film, 1));
      out := film.(id := id);
      err := RelateOrRollBack(id, film, fault, films0, g0, a0, d0);
    }

    /** The rest of Insert once the film row is written: the relations, then
        the commit, or the rollback on any failure. */
    method RelateOrRollBack(id: int, film: Film, fault: Option<Step>,
                            films0: map<int, FilmRow>, g0: RefState, a0: RefState, d0: RefState)
      returns (err: Option<StoreError>)
      requires Valid() && id in films && films0 == films - {id}
      requires g0 == genres.State() && a0 == actors.State() && d0 == directors.State()
      requires LinkedNames(g0, id) == {} && LinkedNames(a0, id) == {} && LinkedNames(d0, id) == {}
      requires forall l :: l in g0.links ==> l.0 in films0
      requires forall l :: l in a0.links ==> l.0 in films0
      requires forall l :: l in d0.links ==> l.0 in films0
      modifies this, genres, actors, directors
      ensures Valid() && nextFilmId == old(nextFilmId)
      ensures err.None? <==> fault != Some(Commit) && BatchSucceeds(film, fault)
      ensures err.Some? ==> err == Some(StorageFailure)
      ensures err.None? ==>
        && films == old(films)
        && directors.State() == Upsert(d0, id, NamesOf(film.directors))
        && actors.State() == Upsert(a0, id, NamesOf(film.actors))
        && genres.State() == Upsert(g0, id, NamesOf(film.genres))
        && LinkedNames(genres.State(), id) == Elements(NamesOf(film.genres))
        && LinkedNames(actors.State(), id) == Elements(NamesOf(film.actors))
        && LinkedNames(directors.State(), id) == Elements(NamesOf(film.directors))
      ensures err.Some? ==>
        && films == films0
        && Contents(genres.State()) == Contents(g0)
        && Contents(actors.State()) == Contents(a0)
        && Contents(directors.State()) == Contents(d0)
    {
      ghost var rows := films;
      var ok := BatchInsertRelations(id, film, fault);
      assert films == rows;
      if ok && fault != Some(Commit) {
        LinkedNamesAfterUpsert(g0, id, NamesOf(film.genres));
        LinkedNamesAfterUpsert(a0, id, NamesOf(film.actors));
        LinkedNamesAfterUpsert(d0, id, NamesOf(film.directors));
        return None;
      }
      RollbackAll(films0, g0, a0, d0);
      err := Some(StorageFailure);
    }

    /** The INSERT INTO films statement: the row gets the next id of the
        sequence. */
    method InsertRow(row: FilmRow) returns (id: int)
      requires Valid()
      modifies this
      ensures Valid()
      ensures id == old(nextFilmId) && id !in old(films) && nextFilmId == id + 1
      ensures films == old(films)[id := row]
    {
      id := nextFilmId;
      films := films[id := row];
      nextFilmId := nextFilmId + 1;
    }

    /** Rolling back a transaction: the films table and the three reference
        tables get back the contents they had when it began; the id
        sequences keep their current values. */
    method RollbackAll(films0: map<int, FilmRow>, g0: RefState, a0: RefState, d0: RefState)
      requires Valid()
      requires Inv(g0) && Inv(a0) && Inv(d0)
      requires g0.nextId <= genres.nextId && a0.nextId <= actors.nextId && d0.nextId <= directors.nextId
      requires forall id :: id in films0 ==> 1 <= id < nextFilmId
      requires forall l :: l in g0.links ==> l.0 in films0
      requires forall l :: l in a0.links ==> l.0 in films0
      requires forall l :: l in d0.links ==> l.0 in films0
      modifies this, genres, actors, directors
      ensures Valid()
      ensures films == films0 && nextFilmId == old(nextFilmId)
      ensures Contents(genres.State()) == Contents(g0)
      ensures Contents(actors.State()) == Contents(a0)
      ensures Contents(directors.State()) == Contents(d0)
    {
      films := films0;
      genres.Rollback(g0);
      actors.Rollback(a0);
      directors.Rollback(d0);
    }

    /** A film id at or past the sequence has no junction rows yet. */
    lemma NoLinksYet(s: RefState, id: int)
      requires Valid() && id >= nextFilmId
      requires s == genres.State() || s == actors.State() || s == directors.State()
      ensures LinkedNames(s, id) == {}
    {
      assert LinkedIds(s, id) == {};
    }

    /** Update(film): a compare-and-swap on (id, version). When the stored row
        has film's id and version, its fields are replaced, its version goes
        up by one, the new version is written back into the film, and the
        relations are added; no matching row is an edit conflict. Any failure
        rolls back the tables, though the version already written back into
        the film stays. Links the new lists leave out are kept. */
    method Update(film: Film, fault: Option<Step>) returns (out: Film, err: Option<StoreError>)
      requires Valid()
      modifies this, genres, actors, directors
      ensures Valid()
      ensures nextFilmId == old(nextFilmId)
      ensures fault == Some(Begin) || fault == Some(FilmStatement) ==> out == film && err == Some(StorageFailure)
      ensures fault != Some(Begin) && fault != Some(FilmStatement) && !Matches(old(films), film) ==>
        out == film && err == Some(EditConflict)
      ensures err == Some(EditConflict) ==> !Matches(old(films), film)
      ensures fault != Some(Begin) && fault != Some(FilmStatement) && Matches(old(films), film) ==>
        out == film.(version := film.version + 1)
      ensures err.None? <==>
        && fault != Some(Begin) && fault != Some(FilmStatement) && fault != Some(Commit)
        && Matches(old(films), film) && BatchSucceeds(film, fault)
      ensures err.None? ==>
        && films == old(films)[film.id := RowOf(film, film.version + 1)]
        && directors.State() == Upsert(old(directors.State()), film.id, NamesOf(film.directors))
        && actors.State() == Upsert(old(actors.State()), film.id, NamesOf(film.actors))
        && genres.State() == Upsert(old(genres.State()), film.id, NamesOf(film.genres))
        && LinkedNames(genres.State(), film.id) == LinkedNames(old(genres.State()), film.id) + Elements(NamesOf(film.genres))
        && LinkedNames(actors.State(), film.id) == LinkedNames(old(actors.State()), film.id) + Elements(NamesOf(film.actors))
        && LinkedNames(directors.State(), film.id) == LinkedNames(old(directors.State()), film.id) + Elements(NamesOf(film.directors))
      ensures err.Some? ==>
        && films == old(films)
        && Contents(genres.State()) == Contents(old(genres.State()))
        && Contents(actors.State()) == Contents(old(actors.State()))
        && Contents(directors.State()) == Contents(old(directors.State()))
    {
      out := film;
      if fault == Some(Begin) || fault == Some(FilmStatement) {
        return film, Some(StorageFailure);
      }
      if !(film.id in films && films[film.id].version == film.version) {
        return film, Some(EditConflict);
      }
      var films0, g0, a0, d0 := films, genres.State(), actors.State(), directors.State();
      films := films[film.id := RowOf(film, film.version + 1)];
      out := film.(version := film.version + 1);
      var ok := BatchInsertRelations(film.id, film, fault);
      if ok && fault != Some(Commit) {
        LinkedNamesAfterUpsert(g0, film.id, NamesOf(film.genres));
        LinkedNamesAfterUpsert(a0, film.id, NamesOf(film.actors));
        LinkedNamesAfterUpsert(d0, film.id, NamesOf(film.directors));
        return out, None;
      }
      RollbackAll(films0, g0, a0, d0);
      err := Some(StorageFailure);
    }

    /** Delete(id): an id below one is not found without a query; otherwise
        the row goes, with its junction rows (the foreign keys cascade), and
        a missing row is not found. */
    method Delete(id: int, fails: bool) returns (err: Option<StoreError>)
      requires Valid()
      modifies this, genres, actors, directors
      ensures Valid()
      ensures id < 1 ==> err == Some(RecordNotFound)
      ensures id >= 1 && fails ==> err == Some(StorageFailure)
      ensures id >= 1 && !fails ==> (err.None? <==> id in old(films)) && (err.Some? ==> err == Some(RecordNotFound))
      ensures err.None? ==>
        && films == old(films) - {id}
        && genres.links == set l | l in old(genres.links) && l.0 != id
        && actors.links == set l | l in old(actors.links) && l.0 != id
        && directors.links == set l | l in old(directors.links) && l.0 != id
      ensures err.Some? ==>
        films == old(films) && genres.links == old(genres.links)
        && actors.links == old(actors.links) && directors.links == old(directors.links)
      ensures genres.rows == old(genres.rows) && actors.rows == old(actors.rows) && directors.rows == old(directors.rows)
      ensures genres.index == old(genres.index) && actors.index == old(actors.index) && directors.index == old(directors.index)
      ensures genres.nextId == old(genres.nextId) && actors.nextId == old(actors.nextId) && directors.nextId == old(directors.nextId)
      ensures nextFilmId == old(nextFilmId)
    {
      if id < 1 {
        return Some(RecordNotFound);
      }
      if fails {
        return Some(StorageFailure);
      }
      if id !in films {
        return Some(RecordNotFound);
      }
      films := films - {id};
      genres.Unlink(id);
      actors.Unlink(id);
      directors.Unlink(id);
      return None;
    }
  }

  /** Whether Update's WHERE clause finds a row: same id, same version. */
  ghost predicate Matches(films: map<int, FilmRow>, f: Film)
  {
    f.id in films && films[f.id].version == f.version
  }

  /** A list as Get returns it: every name linked to the film once, each as
      an entity with id zero. */
  ghost predicate Listed(es: seq<Entity>, s: RefState, filmId: int)
    requires Inv(s)
  {
    && (forall i :: 0 <= i < |es| ==> es[i].id == 0)
    && Distinct(NamesOf(es))
    && Elements(NamesOf(es)) == LinkedNames(s, filmId)
  }

  /** The array_agg subquery of Get for one table, followed by the loop that
      turns the names into entities. */
  method ListLinked(t: RefTable, filmId: int) returns (es: seq<Entity>)
    requires t.Valid()
    ensures Listed(es, t.State(), filmId)
  {
    var names := t.NamesLinkedTo(filmId);
    es := MakeEntities(names);
    assert NamesOf(es) == names;
  }
}
