/** internals/models/genres.go, actors.go and directors.go: the shared
    reference data. Genre, Actor and Director have the same shape and the
    same SQL (a table of names with a unique constraint on the name, and a
    junction table of (film id, entity id) pairs), so one class models each
    of the three tables. The unique constraint is modelled as an index from
    name to id that is kept in step with the rows. */
module Reference {
  import opened Wrappers
  import opened Collections
  import Runtime

  /** Genre, Actor and Director: an identifier and a name. */
  datatype Entity = Entity(id: nat, name: string)

  type Genre = Entity
  type Actor = Entity
  type Director = Entity

  /** A junction row: (film id, entity id). */
  type JunctionRow = (int, nat)

  /** The contents of one reference table, its unique name index, its id
      sequence and its junction table. */
  datatype RefState = RefState(rows: map<nat, string>, index: map<string, nat>, nextId: nat, links: set<JunctionRow>)

  /** Ids come from the sequence, the index and the rows agree, and every
      junction row points at an existing entity. */
  ghost predicate Inv(s: RefState)
  {
    && 1 <= s.nextId
    && (forall id :: id in s.rows ==> 1 <= id < s.nextId)
    && (forall name :: name in s.index ==> s.index[name] in s.rows && s.rows[s.index[name]] == name)
    && (forall id :: id in s.rows ==> s.rows[id] in s.index && s.index[s.rows[id]] == id)
    && (forall l :: l in s.links ==> l.1 in s.rows)
  }

  /** The table never holds two rows with the same name. */
  lemma OneRowPerName(s: RefState, i: nat, j: nat)
    requires Inv(s) && i in s.rows && j in s.rows && s.rows[i] == s.rows[j]
    ensures i == j
  {
    assert s.index[s.rows[i]] == i;
  }

  /** GetOrCreate(name): the existing row for name, or a new row with the
      next id of the sequence. The INSERT draws the id before it finds the
      conflict, so the sequence moves on in both cases. */
  function Resolve(s: RefState, name: string): (r: (RefState, nat))
    requires Inv(s)
    ensures Inv(r.0)
    ensures r.1 in r.0.rows && r.0.rows[r.1] == name
    ensures name in s.index ==> r == (s.(nextId := s.nextId + 1), s.index[name])
    ensures name !in s.index ==>
      && r.1 !in s.rows
      && r.0.rows == s.rows[r.1 := name]
      && r.0.index == s.index[name := r.1]
      && r.0.links == s.links
    ensures r.0.nextId == s.nextId + 1
  {
    if name in s.index then (s.(nextId := s.nextId + 1), s.index[name])
    else
      var id := s.nextId;
      (RefState(s.rows[id := name], s.index[name := id], id + 1, s.links), id)
  }

  /** Resolving a name a second time returns the same id and changes
      nothing but the sequence. */
  lemma ResolveTwice(s: RefState, name: string)
    requires Inv(s)
    ensures var (s1, id) := Resolve(s, name);
      Resolve(s1, name) == (s1.(nextId := s1.nextId + 1), id)
  {
  }

  /** LinkToFilm: insert the junction pair; an existing pair is left alone. */
  function Link(s: RefState, filmId: int, id: nat): (r: RefState)
    requires Inv(s) && id in s.rows
    ensures Inv(r)
    ensures (filmId, id) in r.links && s.links <= r.links
    ensures r.links - s.links <= {(filmId, id)}
    ensures r.rows == s.rows && r.index == s.index && r.nextId == s.nextId
  {
    s.(links := s.links + {(filmId, id)})
  }

  /** The entity ids linked to a film. */
  ghost function LinkedIds(s: RefState, filmId: int): set<nat>
  {
    set l | l in s.links && l.0 == filmId :: l.1
  }

  /** The names linked to a film. */
  ghost function LinkedNames(s: RefState, filmId: int): set<string>
    requires Inv(s)
  {
    set id | id in LinkedIds(s, filmId) :: s.rows[id]
  }

  /** One round of batchInsertRelations for one entity kind: every name is
      inserted unless present, and every name's row is linked to the film.
      Defined name by name; the batch statement has the same effect. What it
      does is stated by UpsertEffect. */
  function Upsert(s: RefState, filmId: int, names: seq<string>): (r: RefState)
    requires Inv(s)
    ensures Inv(r)
    ensures r.nextId == s.nextId + |names|
    decreases |names|
  {
    if names == [] then s
    else
      var s1 := Upsert(s, filmId, names[..|names| - 1]);
      var (s2, id) := Resolve(s1, names[|names| - 1]);
      Link(s2, filmId, id)
  }

  /** The batch with one more name resolves and links that name last. */
  lemma UpsertSnoc(s: RefState, filmId: int, names: seq<string>, n: string)
    requires Inv(s)
    ensures Upsert(s, filmId, names + [n])
         == var (s2, id) := Resolve(Upsert(s, filmId, names), n); Link(s2, filmId, id)
  {
    assert (names + [n])[..|names|] == names;
  }

  /** The batch keeps every existing row and id, gives every supplied name a
      row linked to the film, creates rows only for supplied names, and adds
      junction rows only for this film and the supplied names. */
  lemma {:induction false} UpsertEffect(s: RefState, filmId: int, names: seq<string>)
    requires Inv(s)
    ensures var r := Upsert(s, filmId, names);
      && (forall n :: n in s.index ==> n in r.index && r.index[n] == s.index[n])
      && (forall id :: id in s.rows ==> id in r.rows && r.rows[id] == s.rows[id])
      && (forall n :: n in names ==> n in r.index && (filmId, r.index[n]) in r.links)
      && (forall n :: n in r.index ==> n in s.index || n in names)
      && s.links <= r.links
      && (forall l :: l in r.links && l !in s.links ==> l.0 == filmId && l.1 in r.rows && r.rows[l.1] in names)
    decreases |names|
  {
    if names != [] {
      var init, last := names[..|names| - 1], names[|names| - 1];
      assert names == init + [last];
      UpsertEffect(s, filmId, init);
      var s1 := Upsert(s, filmId, init);
      var (s2, id) := Resolve(s1, last);
      var r := Link(s2, filmId, id);
      assert r == Upsert(s, filmId, names);
      forall n | n in names ensures n in r.index && (filmId, r.index[n]) in r.links {
        if n != last {
          assert n in init;
        }
      }
    }
  }

  /** Once every name exists and is linked to the film, the batch changes
      nothing but the sequence, which draws one value per name. */
  lemma {:induction false} UpsertSettled(s: RefState, filmId: int, names: seq<string>)
    requires Inv(s)
    requires forall n :: n in names ==> n in s.index && (filmId, s.index[n]) in s.links
    ensures Upsert(s, filmId, names) == s.(nextId := s.nextId + |names|)
    decreases |names|
  {
    if names != [] {
      var init := names[..|names| - 1];
      forall n | n in init ensures n in names { }
      UpsertSettled(s, filmId, init);
    }
  }

  /** Repeating the batch with the same names adds no row and no link; only
      the sequence moves on. */
  lemma UpsertIdempotent(s: RefState, filmId: int, names: seq<string>)
    requires Inv(s)
    ensures var r := Upsert(s, filmId, names);
      Upsert(r, filmId, names) == r.(nextId := r.nextId + |names|)
  {
    UpsertEffect(s, filmId, names);
    UpsertSettled(Upsert(s, filmId, names), filmId, names);
  }

  /** After the batch the film is linked to exactly the names it was linked
      to before and the supplied ones: the batch adds and never removes. */
  lemma LinkedNamesAfterUpsert(s: RefState, filmId: int, names: seq<string>)
    requires Inv(s)
    ensures LinkedNames(Upsert(s, filmId, names), filmId) == LinkedNames(s, filmId) + Elements(names)
  {
    var r := Upsert(s, filmId, names);
    UpsertEffect(s, filmId, names);
    forall n | n in LinkedNames(r, filmId) ensures n in LinkedNames(s, filmId) + Elements(names) {
      var id :| id in LinkedIds(r, filmId) && r.rows[id] == n;
      var l :| l in r.links && l.0 == filmId && l.1 == id;
      if l in s.links {
        assert id in LinkedIds(s, filmId);
      }
    }
    forall n | n in LinkedNames(s, filmId) + Elements(names) ensures n in LinkedNames(r, filmId) {
      if n in Elements(names) {
        var l := (filmId, r.index[n]);
        assert l in r.links;
        assert r.index[n] in LinkedIds(r, filmId);
      } else {
        var id :| id in LinkedIds(s, filmId) && s.rows[id] == n;
        var l :| l in s.links && l.0 == filmId && l.1 == id;
        assert id in LinkedIds(r, filmId);
      }
    }
  }

  /** The batch for one film leaves every other film's names alone. */
  lemma UpsertOtherFilm(s: RefState, filmId: int, names: seq<string>, other: int)
    requires Inv(s) && other != filmId
    ensures LinkedNames(Upsert(s, filmId, names), other) == LinkedNames(s, other)
  {
    var r := Upsert(s, filmId, names);
    UpsertEffect(s, filmId, names);
    assert LinkedIds(r, other) == LinkedIds(s, other);
  }

  /** The directors of a film as JSON: Director.MarshalJSON emits a director
      as the bare string of its name, so a list of directors is emitted as
      the list of their names and ids never appear. */
  function MarshalDirector(d: Director): Runtime.JsonValue
  {
    Runtime.JsonString(d.name)
  }

  lemma MarshalDirectorsAreNames(ds: seq<Director>, i: nat)
    requires i < |ds|
    ensures MarshalDirector(ds[i]) == Runtime.JsonString(NamesOf(ds)[i])
    ensures forall d: Director :: d.name == ds[i].name ==> MarshalDirector(d) == MarshalDirector(ds[i])
  {
  }

  /** Entities built from names, as the handlers and Get do: id zero, name
      from the input, same length and order. */
  function FromNames(names: seq<string>): (es: seq<Entity>)
  {
    seq(|names|, i requires 0 <= i < |names| => Entity(0, names[i]))
  }

  /** The names of a list of entities, as batchInsertRelations collects them. */
  function NamesOf(es: seq<Entity>): seq<string>
  {
    seq(|es|, i requires 0 <= i < |es| => es[i].name)
  }

  lemma NamesOfFromNames(names: seq<string>)
    ensures NamesOf(FromNames(names)) == names
  {
  }

  /** The loop `out[i] = T{Name: name}` over a freshly made slice. */
  method MakeEntities(names: seq<string>) returns (es: seq<Entity>)
    ensures |es| == |names|
    ensures forall i :: 0 <= i < |names| ==> es[i].id == 0 && es[i].name == names[i]
  {
    var out := new Entity[|names|];
    for i := 0 to |names|
      invariant forall k :: 0 <= k < i ==> out[k] == Entity(0, names[k])
    {
      out[i] := Entity(0, names[i]);
    }
    es := out[..];
  }

  /** The loop `names[i] = e.Name` of batchInsertRelations. */
  method CollectNames(es: seq<Entity>) returns (names: seq<string>)
    ensures |names| == |es|
    ensures forall i :: 0 <= i < |es| ==> names[i] == es[i].name
  {
    var out := new string[|es|];
    for i := 0 to |es|
      invariant forall k :: 0 <= k < i ==> out[k] == es[k].name
    {
      out[i] := es[i].name;
    }
    names := out[..];
  }

  /** One reference table (genres, actors or directors) with its junction
      table, updated in place. */
  class RefTable {
    var rows: map<nat, string>
    var index: map<string, nat>
    var nextId: nat
    var links: set<JunctionRow>

    function State(): RefState
      reads this
    {
      RefState(rows, index, nextId, links)
    }

    ghost predicate Valid()
      reads this
    {
      Inv(State())
    }

    /** An empty table whose sequence starts at 1. */
    constructor ()
      ensures Valid() && State() == RefState(map[], map[], 1, {})
    {
      rows, index, nextId, links := map[], map[], 1, {};
    }

    /** GetOrCreate(tx, name): insert the name unless present, then return
        the row that holds it. */
    method GetOrCreate(name: string) returns (e: Entity)
      requires Valid()
      modifies this
      ensures Valid()
      ensures (State(), e.id) == Resolve(old(State()), name)
      ensures e.name == name
    {
      if name in index {
        e := Entity(index[name], name);
        nextId := nextId + 1;
      } else {
        var id := nextId;
        rows := rows[id := name];
        index := index[name := id];
        nextId := nextId + 1;
        e := Entity(id, name);
      }
    }

    /** LinkToFilm(tx, film): insert (film id, entity id) unless present. The
        junction's foreign key rejects an id that is not in the table. */
    method LinkToFilm(e: Entity, filmId: int) returns (ok: bool)
      requires Valid()
      modifies this
      ensures Valid()
      ensures ok <==> e.id in old(rows)
      ensures ok ==> State() == Link(old(State()), filmId, e.id)
      ensures !ok ==> State() == old(State())
    {
      if e.id !in rows {
        return false;
      }
      links := links + {(filmId, e.id)};
      return true;
    }

    /** One batch statement of batchInsertRelations: insert every name
        (existing ones are kept), then link every resulting row to the film.
        Postgres rejects the statement when a name occurs twice in the batch,
        because ON CONFLICT DO UPDATE may not touch a row twice; the failed
        statement leaves the rows and links as they were, though ids drawn
        from the sequence are not given back. */
    method BatchInsert(filmId: int, names: seq<string>) returns (ok: bool)
      requires Valid()
      modifies this
      ensures Valid()
      ensures ok <==> Distinct(names)
      ensures ok ==> State() == Upsert(old(State()), filmId, names)
      ensures !ok ==> rows == old(rows) && index == old(index) && links == old(links)
      ensures old(nextId) <= nextId
    {
      var s0 := State();
      var seen: set<string> := {};
      for i := 0 to |names|
        invariant seen == Elements(names[..i]) && Distinct(names[..i])
        invariant State() == Upsert(s0, filmId, names[..i])
        invariant s0.nextId <= nextId
      {
        assert names[..i + 1] == names[..i] + [names[i]];
        DistinctSnoc(names[..i], names[i]);
        if names[i] in seen {
          NotDistinctPrefix(names, i + 1);
          Rollback(s0);
          return false;
        }
        UpsertSnoc(s0, filmId, names[..i], names[i]);
        AddName(filmId, names[i]);
        seen := seen + {names[i]};
      }
      assert names[..|names|] == names;
      return true;
    }

    /** The batch's effect for one name: its row, then its junction row. */
    method AddName(filmId: int, name: string)
      requires Valid()
      modifies this
      ensures Valid()
      ensures State() == var (s, id) := Resolve(old(State()), name); Link(s, filmId, id)
    {
      var e := GetOrCreate(name);
      var linked := LinkToFilm(e, filmId);
    }

    /** Put back the rows and links of an earlier state when the enclosing
        transaction rolls back; the id sequence keeps its current value. */
    method Rollback(s: RefState)
      requires Valid() && Inv(s) && s.nextId <= nextId
      modifies this
      ensures Valid()
      ensures State() == s.(nextId := old(nextId))
    {
      rows, index, links := s.rows, s.index, s.links;
    }

    /** The foreign-key cascade when a film row is deleted: its junction rows go. */
    method Unlink(filmId: int)
      requires Valid()
      modifies this
      ensures Valid()
      ensures links == set l | l in old(links) && l.0 != filmId
      ensures rows == old(rows) && index == old(index) && nextId == old(nextId)
    {
      links := set l | l in links && l.0 != filmId;
    }

    /** The names linked to a film, each once, in no particular order (the
        order array_agg produces is not modelled). */
    method NamesLinkedTo(filmId: int) returns (names: seq<string>)
      requires Valid()
      ensures Distinct(names)
      ensures Elements(names) == LinkedNames(State(), filmId)
    {
      var ids := set l | l in links && l.0 == filmId :: l.1;
      ghost var done: set<nat> := {};
      assert ids == LinkedIds(State(), filmId);
      names := [];
      while ids != {}
        invariant ids !! done && ids + done == LinkedIds(State(), filmId)
        invariant Distinct(names)
        invariant Elements(names) == set id | id in done :: rows[id]
        invariant forall id :: id in ids ==> rows[id] !in Elements(names)
        decreases ids
      {
        var id :| id in ids;
        forall other | other in ids - {id} ensures rows[other] != rows[id] {
          if rows[other] == rows[id] {
            OneRowPerName(State(), other, id);
          }
        }
        assert (set i | i in done + {id} :: rows[i]) == (set i | i in done :: rows[i]) + {rows[id]};
        assert Elements(names + [rows[id]]) == Elements(names) + {rows[id]};
        names := names + [rows[id]];
        ids := ids - {id};
        done := done + {id};
      }
    }
  }
}
