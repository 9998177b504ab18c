/** internals/models/filters.go: the paging and sorting parameters of a list
    request and their validation. */
module Filters {
  import opened Validation

  datatype Filters = Filters(page: int, pageSize: int, sort: string, sortSafelist: seq<string>)

  /** The checks ValidateFilters makes, in source order. */
  function FilterChecks(f: Filters): seq<CheckCall>
  {
    [ CheckCall(f.page > 0, "page", "must be greater than zero"),
      CheckCall(f.page <= 10_000_000, "page", "must be a maximum of 10 million"),
      CheckCall(f.pageSize > 0, "page_size", "must be greater than zero"),
      CheckCall(f.pageSize <= 100, "page_size", "must be a maximum of 100"),
      CheckCall(f.sort in f.sortSafelist, "sort", "invalid sort value") ]
  }

  /** What a well-formed list request looks like. */
  predicate Acceptable(f: Filters)
  {
    1 <= f.page <= 10_000_000 && 1 <= f.pageSize <= 100 && f.sort in f.sortSafelist
  }

  method ValidateFilters(v: Validator, f: Filters)
    modifies v
    ensures v.errors == RunChecks(old(v.errors), FilterChecks(f))
  {
    ghost var cs := FilterChecks(f);
    ghost var e0 := v.errors;
    v.Check(f.page > 0, "page", "must be greater than zero");
    ghost var e1 := v.errors;
    v.Check(f.page <= 10_000_000, "page", "must be a maximum of 10 million");
    ghost var e2 := v.errors;
    v.Check(f.pageSize > 0, "page_size", "must be greater than zero");
    ghost var e3 := v.errors;
    v.Check(f.pageSize <= 100, "page_size", "must be a maximum of 100");
    ghost var e4 := v.errors;
    var inSafelist := In(f.sort, f.sortSafelist);
    v.Check(inSafelist, "sort", "invalid sort value");
    RunChecksCons(e0, cs);
    RunChecksCons(e1, cs[1..]);
    assert cs[1..][1..] == cs[2..];
    RunChecksCons(e2, cs[2..]);
    assert cs[2..][1..] == cs[3..];
    RunChecksCons(e3, cs[3..]);
    assert cs[3..][1..] == cs[4..];
    RunChecksCons(e4, cs[4..]);
    assert cs[4..][1..] == [];
  }

  /** Starting from an empty validator, ValidateFilters leaves it valid
      exactly when the request is acceptable. */
  lemma ValidIffAcceptable(f: Filters)
    ensures RunChecks(map[], FilterChecks(f)) == map[] <==> Acceptable(f)
  {
    var checks := FilterChecks(f);
    ChecksValid(map[], checks);
    assert (forall i :: 0 <= i < |checks| ==> checks[i].ok) <==> Acceptable(f) by {
      if Acceptable(f) {
        forall i | 0 <= i < |checks| ensures checks[i].ok { }
      } else {
        assert !checks[0].ok || !checks[1].ok || !checks[2].ok || !checks[3].ok || !checks[4].ok;
      }
    }
  }

  /** Errors are only ever recorded under "page", "page_size" and "sort". */
  lemma ErrorKeys(errors: map<string, string>, f: Filters)
    ensures RunChecks(errors, FilterChecks(f)).Keys <= errors.Keys + {"page", "page_size", "sort"}
  {
    var checks := FilterChecks(f);
    ChecksKeys(errors, checks);
    forall i | 0 <= i < |checks| ensures checks[i].key in {"page", "page_size", "sort"} { }
  }

  /** A page below one is reported with the lower-bound message, although the
      upper-bound check on the same key runs after it. */
  lemma PageTooSmallMessage(f: Filters)
    requires f.page <= 0
    ensures var r := RunChecks(map[], FilterChecks(f));
      "page" in r && r["page"] == "must be greater than zero"
  {
    FirstMessageWins(map[], FilterChecks(f), 0);
  }

  /** A page above ten million is reported with the upper-bound message. */
  lemma PageTooLargeMessage(f: Filters)
    requires f.page > 10_000_000
    ensures var r := RunChecks(map[], FilterChecks(f));
      "page" in r && r["page"] == "must be a maximum of 10 million"
  {
    FirstMessageWins(map[], FilterChecks(f), 1);
  }

  /** With an empty safelist every sort value is rejected. */
  lemma EmptySafelistRejects(errors: map<string, string>, f: Filters)
    requires f.sortSafelist == []
    ensures "sort" in RunChecks(errors, FilterChecks(f))
  {
    var checks := FilterChecks(f);
    ChecksKeys(errors, checks);
    assert !checks[4].ok;
  }
}
