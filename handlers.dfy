/** cmd/api/handlers.go: the film-building part of createFilmHandler, the
    partial-update merge and error mapping of updateFilmHandler, and the
    query defaults of ListFilmsHandler. */
module Handlers {
  import opened Wrappers
  import opened Collections
  import opened Strings
  import opened Runtime
  import opened Reference
  import opened StoreErrors
  import opened Validation
  import opened Films
  import opened Helpers

  // ---------------------------------------------------------------------
  // createFilmHandler

  /** The decoded request body of createFilmHandler. */
  datatype CreateInput = CreateInput(
    title: string,
    year: Int32,
    runtime: Int32,
    genres: seq<string>,
    directors: seq<string>,
    actors: seq<string>,
    rating: Rating,
    description: string,
    image: string)

  /** The film built from the request: the scalar fields copied, each name
      list turned into entities of the same length and order, id and
      version left at zero. */
  method FilmFromInput(input: CreateInput) returns (film: Film)
    ensures film.id == 0 && film.version == 0
    ensures film.title == input.title && film.year == input.year && film.runtime == input.runtime
    ensures film.rating == input.rating && film.description == input.description && film.img == input.image
    ensures NamesOf(film.genres) == input.genres && NamesOf(film.directors) == input.directors
    ensures NamesOf(film.actors) == input.actors
    ensures film.genres == FromNames(input.genres) && film.directors == FromNames(input.directors)
    ensures film.actors == FromNames(input.actors)
  {
    var genres := MakeEntities(input.genres);
    var directors := MakeEntities(input.directors);
    var actors := MakeEntities(input.actors);
    film := Film(0, input.title, input.year, input.runtime, genres, directors, actors,
                 input.rating, input.description, input.image, 0);
  }

  // ---------------------------------------------------------------------
  // updateFilmHandler

  /** The decoded request body of updateFilmHandler: a field left out of the
      JSON is None. */
  datatype FilmPatch = FilmPatch(
    title: Option<string>,
    year: Option<Int32>,
    runtime: Option<Int32>,
    genres: Option<seq<string>>,
    directors: Option<seq<string>>,
    actors: Option<seq<string>>,
    rating: Option<Rating>,
    description: Option<string>,
    img: Option<string>)

  /** A patch with every field left out. */
  const EmptyPatch := FilmPatch(None, None, None, None, None, None, None, None, None)

  function Pick<T>(given: Option<T>, current: T): T
  {
    if given.Some? then given.value else current
  }

  function PickEntities(given: Option<seq<string>>, current: seq<Entity>): seq<Entity>
  {
    if given.Some? then FromNames(given.value) else current
  }

  /** The film after the merge: a field the request gives is replaced, every
      other field keeps the value fetched by Get. */
  function Patched(f: Film, p: FilmPatch): (r: Film)
    ensures r.id == f.id && r.version == f.version
    ensures p.title.None? ==> r.title == f.title
    ensures p.genres.Some? ==> NamesOf(r.genres) == p.genres.value
    ensures p.directors.Some? ==> NamesOf(r.directors) == p.directors.value
    ensures p.actors.Some? ==> NamesOf(r.actors) == p.actors.value
  {
    f.(title := Pick(p.title, f.title),
       year := Pick(p.year, f.year),
       runtime := Pick(p.runtime, f.runtime),
       genres := PickEntities(p.genres, f.genres),
       directors := PickEntities(p.directors, f.directors),
       actors := PickEntities(p.actors, f.actors),
       rating := Pick(p.rating, f.rating),
       description := Pick(p.description, f.description),
       img := Pick(p.img, f.img))
  }

  /** The merge, field by field, with a fresh entity list for each name
      list the request gives. */
  method ApplyPatch(film: Film, p: FilmPatch) returns (r: Film)
    ensures r == Patched(film, p)
  {
    r := film;
    if p.title.Some? {
      r := r.(title := p.title.value);
    }
    if p.year.Some? {
      r := r.(year := p.year.value);
    }
    if p.runtime.Some? {
      r := r.(runtime := p.runtime.value);
    }
    r := PatchLists(r, p);
    if p.rating.Some? {
      r := r.(rating := p.rating.value);
    }
    if p.description.Some? {
      r := r.(description := p.description.value);
    }
    if p.img.Some? {
      r := r.(img := p.img.value);
    }
  }

  /** The three name lists of the merge. */
  method PatchLists(film: Film, p: FilmPatch) returns (r: Film)
    ensures r == film.(genres := PickEntities(p.genres, film.genres),
                       directors := PickEntities(p.directors, film.directors),
                       actors := PickEntities(p.actors, film.actors))
  {
    var genres, directors, actors := film.genres, film.directors, film.actors;
    if p.genres.Some? {
      genres := MakeEntities(p.genres.value);
      assert genres == FromNames(p.genres.value);
    }
    if p.directors.Some? {
      directors := MakeEntities(p.directors.value);
      assert directors == FromNames(p.directors.value);
    }
    if p.actors.Some? {
      actors := MakeEntities(p.actors.value);
      assert actors == FromNames(p.actors.value);
    }
    r := film.(genres := genres, directors := directors, actors := actors);
  }

  /** A request that gives no field leaves the film as it was. */
  lemma EmptyPatchKeeps(f: Film)
    ensures Patched(f, EmptyPatch) == f
  {
  }

  /** Applying the same request twice is the same as applying it once. */
  lemma PatchIdempotent(f: Film, p: FilmPatch)
    ensures Patched(Patched(f, p), p) == Patched(f, p)
  {
  }

  /** A field the request gives is changed to that value; a field it leaves
      out is not changed. */
  lemma PatchChangesGivenFields(f: Film, p: FilmPatch)
    ensures Patched(f, p).title == (if p.title.Some? then p.title.value else f.title)
    ensures Patched(f, p).year == (if p.year.Some? then p.year.value else f.year)
    ensures Patched(f, p).runtime == (if p.runtime.Some? then p.runtime.value else f.runtime)
    ensures Patched(f, p).rating == (if p.rating.Some? then p.rating.value else f.rating)
    ensures Patched(f, p).description == (if p.description.Some? then p.description.value else f.description)
    ensures Patched(f, p).img == (if p.img.Some? then p.img.value else f.img)
    ensures p.genres.None? ==> Patched(f, p).genres == f.genres
    ensures p.directors.None? ==> Patched(f, p).directors == f.directors
    ensures p.actors.None? ==> Patched(f, p).actors == f.actors
  {
  }

  /** The responses updateFilmHandler can end with (the JSON decoding of the
      body is not part of this model). */
  datatype Response =
    | NotFoundResponse
    | EditConflictResponse
    | ServerErrorResponse
    | FilmResponse(film: Film)

  /** The response for an error from Update. */
  function UpdateErrorResponse(e: StoreError): (r: Response)
    ensures r == EditConflictResponse <==> e == EditConflict
    ensures r != EditConflictResponse ==> r == ServerErrorResponse
  {
    if e == EditConflict then EditConflictResponse else ServerErrorResponse
  }

  /** Whether the write-back of updateFilmHandler gets through: the
      transaction opens, the UPDATE runs, every relation batch succeeds and
      the commit goes through. */
  ghost predicate UpdateSucceeds(merged: Film, fault: Option<Step>)
  {
    && fault != Some(Begin) && fault != Some(FilmStatement) && fault != Some(Commit)
    && BatchSucceeds(merged, fault)
  }

  /** updateFilmHandler: parse the id, fetch the film, merge the request,
      write it back. `fetched` is the film Get returned. The version Get
      returned is the version Update expects, so with no other writer the
      compare-and-swap always matches: the handler never answers with an
      edit conflict, and it answers with the merged film at the next version
      exactly when the film exists and the write-back gets through. */
  method UpdateFilmHandler(m: FilmModel, idText: string, p: FilmPatch, getFails: bool, fault: Option<Step>)
    returns (resp: Response, ghost fetched: Film)
    requires m.Valid()
    modifies m, m.genres, m.actors, m.directors
    ensures m.Valid()
    ensures resp != EditConflictResponse
    ensures ParseInt(idText, Bits64).None? ==> resp == NotFoundResponse && m.films == old(m.films)
    ensures ParseInt(idText, Bits64).Some? ==>
      var id := ParseInt(idText, Bits64).value;
      && (id < 1 || getFails || id !in old(m.films) ==> resp == NotFoundResponse && m.films == old(m.films))
      && (id >= 1 && !getFails && id in old(m.films) ==>
            && fetched.id == id
            && RowOf(fetched, fetched.version) == old(m.films)[id]
            && Listed(fetched.genres, old(m.genres.State()), id)
            && Listed(fetched.actors, old(m.actors.State()), id)
            && Listed(fetched.directors, old(m.directors.State()), id)
            && (resp.FilmResponse? <==> UpdateSucceeds(Patched(fetched, p), fault))
            && (!resp.FilmResponse? ==> resp == ServerErrorResponse))
    ensures resp.FilmResponse? ==>
      var id := fetched.id;
      var merged := Patched(fetched, p);
      && ParseInt(idText, Bits64) == Some(id) && id >= 1 && !getFails && id in old(m.films)
      && resp.film == merged.(version := fetched.version + 1)
      && m.films == old(m.films)[id := RowOf(resp.film, resp.film.version)]
      && LinkedNames(m.genres.State(), id) == LinkedNames(old(m.genres.State()), id) + Elements(NamesOf(merged.genres))
      && LinkedNames(m.actors.State(), id) == LinkedNames(old(m.actors.State()), id) + Elements(NamesOf(merged.actors))
      && LinkedNames(m.directors.State(), id) == LinkedNames(old(m.directors.State()), id) + Elements(NamesOf(merged.directors))
    ensures !resp.FilmResponse? ==>
      && m.films == old(m.films)
      && Contents(m.genres.State()) == Contents(old(m.genres.State()))
      && Contents(m.actors.State()) == Contents(old(m.actors.State()))
      && Contents(m.directors.State()) == Contents(old(m.directors.State()))
  {
    fetched := Film(0, "", 0, 0, [], [], [], Rating(0), "", "", 0);
    var parsed := ParseInt(idText, Bits64);
    if parsed.None? {
      resp := NotFoundResponse;
      return;
    }
    var got := m.Get(parsed.value, getFails);
    if got.Err? {
      resp := NotFoundResponse;
      return;
    }
    fetched := got.value;
    var film := ApplyPatch(got.value, p);
    assert Matches(m.films, film) by {
      assert RowOf(got.value, got.value.version) == m.films[got.value.id];
    }
    resp := WriteBack(m, film, fault);
  }

  /** The write-back of updateFilmHandler: Update, with its error mapped to
      a response. The film read is the one in the table, so the
      compare-and-swap matches and the answer is the film at the next
      version exactly when the write gets through. */
  method WriteBack(m: FilmModel, film: Film, fault: Option<Step>) returns (resp: Response)
    requires m.Valid()
    requires Matches(m.films, film)
    modifies m, m.genres, m.actors, m.directors
    ensures m.Valid()
    ensures resp.FilmResponse? <==> UpdateSucceeds(film, fault)
    ensures !resp.FilmResponse? ==> resp == ServerErrorResponse
    ensures resp.FilmResponse? ==>
      && resp.film == film.(version := film.version + 1)
      && m.films == old(m.films)[film.id := RowOf(resp.film, resp.film.version)]
      && LinkedNames(m.genres.State(), film.id) == LinkedNames(old(m.genres.State()), film.id) + Elements(NamesOf(film.genres))
      && LinkedNames(m.actors.State(), film.id) == LinkedNames(old(m.actors.State()), film.id) + Elements(NamesOf(film.actors))
      && LinkedNames(m.directors.State(), film.id) == LinkedNames(old(m.directors.State()), film.id) + Elements(NamesOf(film.directors))
    ensures !resp.FilmResponse? ==>
      && m.films == old(m.films)
      && Contents(m.genres.State()) == Contents(old(m.genres.State()))
      && Contents(m.actors.State()) == Contents(old(m.actors.State()))
      && Contents(m.directors.State()) == Contents(old(m.directors.State()))
  {
    var out, err := m.Update(film, fault);
    if err.Some? {
      resp := UpdateErrorResponse(err.value);
    } else {
      resp := FilmResponse(out);
    }
  }

  // ---------------------------------------------------------------------
  // ListFilmsHandler

  /** The sort keys the list endpoint accepts: five columns, each ascending
      or descending with a leading "-". */
  const SortSafelist: seq<string> :=
    ["id", "title", "year", "runtime", "rating", "-id", "-title", "-year", "-runtime", "-rating"]

  /** The parameters ListFilmsHandler reads from the query. */
  datatype ListInput = ListInput(
    title: string,
    genres: seq<string>,
    directors: seq<string>,
    actors: seq<string>,
    page: int,
    pageSize: int,
    sortValues: seq<string>,
    sortSafelist: seq<string>)

  method ReadListInput(q: QueryValues, v: Validator) returns (input: ListInput)
    modifies v
    ensures input.title == ReadString(q, "title", "")
    ensures input.actors == ReadCSV(q, "actors", [])
    ensures input.directors == ReadCSV(q, "directors", [])
    ensures input.genres == ReadCSV(q, "genres", [])
    ensures input.page == IntParam(q, "page", 1).0
    ensures input.pageSize == IntParam(q, "page_size", 20).0
    ensures input.sortValues == ReadCSV(q, "sort", [])
    ensures input.sortSafelist == SortSafelist
    ensures v.errors == IntParamErrors(IntParamErrors(old(v.errors), q, "page", 1), q, "page_size", 20)
    ensures IntParam(q, "page", 1).1 && "page" !in old(v.errors) ==> v.errors["page"] == "must be an integer value"
    ensures IntParam(q, "page_size", 20).1 && "page_size" !in old(v.errors) ==>
      v.errors["page_size"] == "must be an integer value"
    ensures old(v.errors).Keys <= v.errors.Keys <= old(v.errors).Keys + {"page", "page_size"}
    ensures "page" in v.errors.Keys - old(v.errors).Keys ==> IntParam(q, "page", 1).1
    ensures "page_size" in v.errors.Keys - old(v.errors).Keys ==> IntParam(q, "page_size", 20).1
  {
    var title := ReadString(q, "title", "");
    var actors := ReadCSV(q, "actors", []);
    var directors := ReadCSV(q, "directors", []);
    var genres := ReadCSV(q, "genres", []);
    var page := ReadInt(q, "page", 1, v);
    var pageSize := ReadInt(q, "page_size", 20, v);
    var sortValues := ReadCSV(q, "sort", []);
    input := ListInput(title, genres, directors, actors, page, pageSize, sortValues, SortSafelist);
  }

  /** With no query parameters the list starts at page 1 with 20 films per
      page, and nothing is flagged. */
  lemma ListDefaults()
    ensures IntParam(map[], "page", 1) == (1, false)
    ensures IntParam(map[], "page_size", 20) == (20, false)
    ensures ReadCSV(map[], "sort", []) == []
  {
  }

  /** The safelist holds ten distinct keys: each column ascending and
      descending. */
  lemma SortSafelistShape()
    ensures |SortSafelist| == 10
    ensures forall i :: 0 <= i < 5 ==> SortSafelist[i + 5] == "-" + SortSafelist[i]
    ensures forall i :: 0 <= i < 5 ==> SortSafelist[i] != [] && SortSafelist[i][0] != '-'
  {
  }
}
