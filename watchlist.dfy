/** internals/models/watchlist.go: a user's watchlist entries, their
    validation, the watchlist table with its unique (user, film) constraint,
    and the dynamic WHERE clause of the list query. */
module Watchlist {
  import opened Wrappers
  import opened Strings
  import opened Validation
  import opened StoreErrors

  /** An instant; the clock is a parameter of the operations that read it. */
  type Time = int

  datatype Entry = Entry(
    id: int,
    userId: int,
    filmId: int,
    addedAt: Time,
    notes: string,
    priority: int,
    watched: bool,
    watchedAt: Option<Time>,
    rating: Option<int>,
    version: int)

  // ---------------------------------------------------------------------
  // Validation

  /** The checks ValidateWatchlistEntry makes, in source order; the rating
      is checked only when one is given. */
  function EntryChecks(e: Entry): seq<CheckCall>
  {
    BaseChecks(e) + RatingChecks(e)
  }

  function BaseChecks(e: Entry): seq<CheckCall>
  {
    [ CheckCall(e.filmId > 0, "film_id", "must be provided and greater than 0"),
      CheckCall(e.priority >= 1 && e.priority <= 10, "priority", "must be between 1 and 10"),
      CheckCall(|e.notes| <= 1000, "notes", "must not be more than 1000 characters long") ]
  }

  function RatingChecks(e: Entry): seq<CheckCall>
  {
    if e.rating.Some? then [CheckCall(1 <= e.rating.value <= 10, "rating", "must be between 1 and 10")] else []
  }

  /** An entry the validator accepts. */
  predicate EntryAcceptable(e: Entry)
  {
    && e.filmId > 0
    && 1 <= e.priority <= 10
    && |e.notes| <= 1000
    && (e.rating.Some? ==> 1 <= e.rating.value <= 10)
  }

  /** The entry after validation: a watched entry without a watch time is
      given the current time; nothing else changes. */
  function Stamped(e: Entry, now: Time): (r: Entry)
    ensures r.watchedAt.None? <==> e.watchedAt.None? && !e.watched
    ensures e.watchedAt.Some? ==> r.watchedAt == e.watchedAt
    ensures e.watched && e.watchedAt.None? ==> r.watchedAt == Some(now)
    ensures r.(watchedAt := e.watchedAt) == e
  {
    if e.watched && e.watchedAt.None? then e.(watchedAt := Some(now)) else e
  }

  method ValidateWatchlistEntry(v: Validator, entry: Entry, now: Time) returns (out: Entry)
    modifies v
    ensures v.errors == RunChecks(old(v.errors), EntryChecks(entry))
    ensures out == Stamped(entry, now)
  {
    CheckBase(v, entry);
    if entry.rating.Some? {
      ghost var e3 := v.errors;
      v.Check(1 <= entry.rating.value <= 10, "rating", "must be between 1 and 10");
      RunChecksCons(e3, RatingChecks(entry));
    }
    RunChecksAppend(old(v.errors), BaseChecks(entry), RatingChecks(entry));
    out := entry;
    if entry.watched && entry.watchedAt.None? {
      out := out.(watchedAt := Some(now));
    }
  }

  method CheckBase(v: Validator, entry: Entry)
    modifies v
    ensures v.errors == RunChecks(old(v.errors), BaseChecks(entry))
  {
    ghost var cs := BaseChecks(entry);
    ghost var e0 := v.errors;
    v.Check(entry.filmId > 0, "film_id", "must be provided and greater than 0");
    ghost var e1 := v.errors;
    v.Check(entry.priority >= 1 && entry.priority <= 10, "priority", "must be between 1 and 10");
    ghost var e2 := v.errors;
    v.Check(|entry.notes| <= 1000, "notes", "must not be more than 1000 characters long");
    RunChecksCons(e0, cs);
    RunChecksCons(e1, cs[1..]);
    assert cs[1..][1..] == cs[2..];
    RunChecksCons(e2, cs[2..]);
    assert cs[2..][1..] == [];
  }

  /** Starting from an empty validator, the entry is flagged exactly when
      one of the rules is broken. */
  lemma EntryValidIffAcceptable(e: Entry)
    ensures RunChecks(map[], EntryChecks(e)) == map[] <==> EntryAcceptable(e)
  {
    var cs := EntryChecks(e);
    ChecksValid(map[], cs);
    if EntryAcceptable(e) {
      forall i | 0 <= i < |cs| ensures cs[i].ok { }
    } else if e.filmId <= 0 {
      assert !cs[0].ok;
    } else if !(1 <= e.priority <= 10) {
      assert !cs[1].ok;
    } else if |e.notes| > 1000 {
      assert !cs[2].ok;
    } else {
      assert !cs[3].ok;
    }
  }

  /** Without a rating nothing is ever recorded under "rating". */
  lemma NoRatingNoRatingError(errors: map<string, string>, e: Entry)
    requires e.rating.None? && "rating" !in errors
    ensures "rating" !in RunChecks(errors, EntryChecks(e))
  {
    var cs := EntryChecks(e);
    ChecksKeys(errors, cs);
    assert forall i :: 0 <= i < |cs| ==> cs[i].key != "rating";
  }

  // ---------------------------------------------------------------------
  // The watchlist table

  /** Whether some entry belongs to the user and names the film. */
  ghost predicate HasPair(entries: map<int, Entry>, userId: int, filmId: int)
  {
    exists id :: id in entries && entries[id].userId == userId && entries[id].filmId == filmId
  }

  /** Whether the stored entry with that id belongs to the user. */
  predicate Owns(entries: map<int, Entry>, userId: int, entryId: int)
  {
    entryId in entries && entries[entryId].userId == userId
  }

  /** The stored entry after Update's SET clause: the editable fields come
      from the request, the rest stays, the version goes up by one. */
  function Edited(stored: Entry, req: Entry): (r: Entry)
    ensures r.id == stored.id && r.userId == stored.userId && r.filmId == stored.filmId
    ensures r.addedAt == stored.addedAt
    ensures r.version == stored.version + 1
    ensures r.notes == req.notes && r.priority == req.priority && r.watched == req.watched
    ensures r.watchedAt == req.watchedAt && r.rating == req.rating
  {
    stored.(notes := req.notes, priority := req.priority, watched := req.watched,
            watchedAt := req.watchedAt, rating := req.rating, version := stored.version + 1)
  }

  /** The watchlist table: entries by id, ids from a sequence, and the
      unique constraint on (user, film) as an index. */
  class WatchlistModel {
    var entries: map<int, Entry>
    var nextId: int
    var byPair: map<(int, int), int>

    ghost predicate Valid()
      reads this
    {
      && 1 <= nextId
      && (forall id :: id in entries ==> 1 <= id < nextId && entries[id].id == id)
      && (forall p :: p in byPair ==>
            (byPair[p] in entries && entries[byPair[p]].userId == p.0 && entries[byPair[p]].filmId == p.1))
      && (forall id :: id in entries ==>
            ((entries[id].userId, entries[id].filmId) in byPair
             && byPair[(entries[id].userId, entries[id].filmId)] == id))
    }

    constructor ()
      ensures Valid() && entries == map[]
    {
      entries, nextId, byPair := map[], 1, map[];
    }

    /** No two entries share a (user, film) pair. */
    lemma PairsUnique(i: int, j: int)
      requires Valid() && i in entries && j in entries
      requires entries[i].userId == entries[j].userId && entries[i].filmId == entries[j].filmId
      ensures i == j
    {
    }

    /** CheckExists(user, film). */
    method CheckExists(userId: int, filmId: int, fails: bool) returns (r: Result<bool, StoreError>)
      requires Valid()
      ensures fails ==> r == Err(StorageFailure)
      ensures !fails ==> r.Ok? && (r.value <==> HasPair(entries, userId, filmId))
    {
      if fails {
        return Err(StorageFailure);
      }
      var found := (userId, filmId) in byPair;
      if found {
        assert Owns(entries, userId, byPair[(userId, filmId)]);
      }
      return Ok(found);
    }

    /** Insert(entry): a new row with the next id, the insertion time and
        version 1, all three written back into the entry; a second entry for
        the same (user, film) pair violates the unique constraint, after the
        id has been drawn from the sequence. */
    method Insert(entry: Entry, now: Time, fails: bool) returns (out: Entry, err: Option<StoreError>)
      requires Valid()
      modifies this
      ensures Valid()
      ensures fails ==> err == Some(StorageFailure)
      ensures !fails ==> (err == Some(DuplicateWatchlistEntry) <==> HasPair(old(entries), entry.userId, entry.filmId))
      ensures err.Some? ==> out == entry && entries == old(entries)
      ensures err.None? ==>
        && out == entry.(id := out.id, addedAt := now, version := 1)
        && out.id !in old(entries)
        && entries == old(entries)[out.id := out]
      ensures fails ==> nextId == old(nextId)
      ensures !fails ==> nextId == old(nextId) + 1
    {
      if fails {
        return entry, Some(StorageFailure);
      }
      var key := (entry.userId, entry.filmId);
      if key in byPair {
        assert Owns(entries, entry.userId, byPair[key]);
        nextId := nextId + 1;
        return entry, Some(DuplicateWatchlistEntry);
      }
      var id := nextId;
      out := entry.(id := id, addedAt := now, version := 1);
      entries := entries[id := out];
      byPair := byPair[key := id];
      nextId := nextId + 1;
      err := None;
    }

    /** Get(user, entryId): an id below one is not found without a query;
        an entry of another user is not found either. */
    method Get(userId: int, entryId: int, fails: bool) returns (r: Result<Entry, StoreError>)
      requires Valid()
      ensures entryId < 1 ==> r == Err(RecordNotFound)
      ensures entryId >= 1 && fails ==> r == Err(StorageFailure)
      ensures entryId >= 1 && !fails ==> (r.Ok? <==> Owns(entries, userId, entryId))
      ensures r.Ok? ==> r.value == entries[entryId] && r.value.userId == userId && r.value.id == entryId
      ensures r.Err? && r.error != StorageFailure ==> r.error == RecordNotFound
    {
      if entryId < 1 {
        return Err(RecordNotFound);
      }
      if fails {
        return Err(StorageFailure);
      }
      if !Owns(entries, userId, entryId) {
        return Err(RecordNotFound);
      }
      return Ok(entries[entryId]);
    }

    /** Update(entry): a compare-and-swap on (id, user, version). */
    method Update(entry: Entry, fails: bool) returns (out: Entry, err: Option<StoreError>)
      requires Valid()
      modifies this
      ensures Valid()
      ensures fails ==> err == Some(StorageFailure)
      ensures !fails ==> (err.None? <==>
        Owns(old(entries), entry.userId, entry.id) && old(entries)[entry.id].version == entry.version)
      ensures !fails && err.Some? ==> err == Some(EditConflict)
      ensures err.Some? ==> out == entry && entries == old(entries)
      ensures err.None? ==>
        && out == entry.(version := entry.version + 1)
        && entries == old(entries)[entry.id := Edited(old(entries)[entry.id], entry)]
    {
      if fails {
        return entry, Some(StorageFailure);
      }
      if !(Owns(entries, entry.userId, entry.id) && entries[entry.id].version == entry.version) {
        return entry, Some(EditConflict);
      }
      entries := entries[entry.id := Edited(entries[entry.id], entry)];
      out := entry.(version := entry.version + 1);
      err := None;
    }

    /** Delete(user, entryId): only the user's own entry is removed. */
    method Delete(userId: int, entryId: int, fails: bool) returns (err: Option<StoreError>)
      requires Valid()
      modifies this
      ensures Valid()
      ensures entryId < 1 ==> err == Some(RecordNotFound)
      ensures entryId >= 1 && fails ==> err == Some(StorageFailure)
      ensures entryId >= 1 && !fails ==> (err.None? <==> Owns(old(entries), userId, entryId))
      ensures err.Some? && err != Some(StorageFailure) ==> err == Some(RecordNotFound)
      ensures err.None? ==> entries == old(entries) - {entryId}
      ensures err.Some? ==> entries == old(entries)
    {
      if entryId < 1 {
        return Some(RecordNotFound);
      }
      if fails {
        return Some(StorageFailure);
      }
      if !Owns(entries, userId, entryId) {
        return Some(RecordNotFound);
      }
      var e := entries[entryId];
      entries := entries - {entryId};
      byPair := byPair - {(e.userId, e.filmId)};
      return None;
    }
  }

  // ---------------------------------------------------------------------
  // The WHERE clause of GetAll

  /** A query argument. */
  datatype Arg = IntArg(i: int) | BoolArg(b: bool)

  /** One condition of the WHERE clause: column, placeholder number, value. */
  datatype Cond = Cond(column: string, placeholder: nat, value: Arg)

  /** The conditions GetAll filters on: always the user, then the watched
      flag when one is given, then the priority when it is positive. The
      placeholders are numbered 1, 2, ... in that order. */
  function WhereConds(userId: int, watched: Option<bool>, priority: int): (cs: seq<Cond>)
    ensures 1 <= |cs| <= 3
    ensures cs[0] == Cond("user_id", 1, IntArg(userId))
    ensures forall i :: 0 <= i < |cs| ==> cs[i].placeholder == i + 1
    ensures |cs| == 1 + (if watched.Some? then 1 else 0) + (if priority > 0 then 1 else 0)
    ensures watched.Some? ==> cs[1] == Cond("watched", 2, BoolArg(watched.value))
    ensures priority > 0 ==> cs[|cs| - 1] == Cond("priority", |cs|, IntArg(priority))
  {
    var c1 := [Cond("user_id", 1, IntArg(userId))];
    var c2 := if watched.Some? then c1 + [Cond("watched", 2, BoolArg(watched.value))] else c1;
    if priority > 0 then c2 + [Cond("priority", |c2| + 1, IntArg(priority))] else c2
  }

  /** The text of one condition, "w.<column> = $<n>", with the number
      written as fmt's %d writes it. */
  function ConditionText(column: string, placeholder: int): string
  {
    "w." + column + " = $" + FormatInt(placeholder)
  }

  function CondText(c: Cond): string
  {
    ConditionText(c.column, c.placeholder)
  }

  /** The conditions joined by " AND ". */
  function Render(cs: seq<Cond>): string
    decreases |cs|
  {
    if cs == [] then ""
    else if |cs| == 1 then CondText(cs[0])
    else Render(cs[..|cs| - 1]) + " AND " + CondText(cs[|cs| - 1])
  }

  /** The first condition reads "w.user_id = $1". */
  lemma UserCondText(userId: int)
    ensures CondText(WhereConds(userId, None, 0)[0]) == "w.user_id = $1"
  {
    assert FormatInt(1) == "1";
  }

  /** Appending a condition appends " AND " and its text. */
  lemma RenderSnoc(cs: seq<Cond>, c: Cond)
    requires cs != []
    ensures Render(cs + [c]) == Render(cs) + " AND " + CondText(c)
  {
    assert (cs + [c])[..|cs|] == cs;
  }

  /** The builder at the start of GetAll: the WHERE text, the number of
      filter arguments, the LIMIT/OFFSET text and the full argument list.
      The filters' limit and offset are parameters (their helpers are not
      part of this model). */
  method BuildListQuery(userId: int, watched: Option<bool>, priority: int, limit: int, offset: int)
    returns (whereClause: string, argCount: int, pageClause: string, args: seq<Arg>)
    ensures var cs := WhereConds(userId, watched, priority);
      && whereClause == Render(cs)
      && argCount == |cs|
      && |args| == argCount + 2
      && (forall i :: 0 <= i < |cs| ==> args[cs[i].placeholder - 1] == cs[i].value)
      && args[argCount] == IntArg(limit) && args[argCount + 1] == IntArg(offset)
      && pageClause == "LIMIT $" + FormatInt(argCount + 1) + " OFFSET $" + FormatInt(argCount + 2)
  {
    ghost var cs: seq<Cond> := [Cond("user_id", 1, IntArg(userId))];
    whereClause := ConditionText("user_id", 1);
    args := [IntArg(userId)];
    argCount := 1;
    if watched.Some? {
      argCount := argCount + 1;
      whereClause := whereClause + " AND " + ConditionText("watched", argCount);
      args := args + [BoolArg(watched.value)];
      ghost var c := Cond("watched", argCount, BoolArg(watched.value));
      RenderSnoc(cs, c);
      cs := cs + [c];
      assert whereClause == Render(cs);
    }
    if priority > 0 {
      argCount := argCount + 1;
      whereClause := whereClause + " AND " + ConditionText("priority", argCount);
      args := args + [IntArg(priority)];
      ghost var c := Cond("priority", argCount, IntArg(priority));
      RenderSnoc(cs, c);
      cs := cs + [c];
      assert whereClause == Render(cs);
    }
    assert cs == WhereConds(userId, watched, priority);
    pageClause := "LIMIT $" + FormatInt(argCount + 1) + " OFFSET $" + FormatInt(argCount + 2);
    args := args + [IntArg(limit), IntArg(offset)];
  }
}
