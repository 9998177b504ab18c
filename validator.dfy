/** internals/validator: an error map keyed by field name in which the first
    message recorded for a key is kept, and two list predicates. The regular
    expressions behind MatchesURL and MatchesEmail are not part of this model;
    callers receive MatchesURL as a function parameter instead. */
module Validation {
  import opened Collections

  /** The error map after AddError(key, message). */
  function AddedError(errors: map<string, string>, key: string, message: string): (r: map<string, string>)
    ensures r.Keys == errors.Keys + {key}
    ensures forall k :: k in errors ==> r[k] == errors[k]
    ensures key !in errors ==> r[key] == message
  {
    if key in errors then errors else errors[key := message]
  }

  /** The error map after Check(ok, key, message). */
  function Checked(errors: map<string, string>, ok: bool, key: string, message: string): (r: map<string, string>)
    ensures errors.Keys <= r.Keys <= errors.Keys + {key}
    ensures forall k :: k in errors ==> r[k] == errors[k]
    ensures r == errors <==> ok || key in errors
  {
    if ok then errors else AddedError(errors, key, message)
  }

  class Validator {
    var errors: map<string, string>

    /** New(): an empty error map, hence a valid validator. */
    constructor ()
      ensures errors == map[] && Valid()
    {
      errors := map[];
    }

    function Valid(): (b: bool)
      reads this
      ensures b <==> errors == map[]
    {
      |errors| == 0
    }

    method AddError(key: string, message: string)
      modifies this
      ensures errors == AddedError(old(errors), key, message)
    {
      if key !in errors {
        errors := errors[key := message];
      }
    }

    method Check(ok: bool, key: string, message: string)
      modifies this
      ensures errors == Checked(old(errors), ok, key, message)
    {
      if !ok {
        AddError(key, message);
      }
    }
  }

  /** In(value, list...): a linear search with early return. */
  method In(value: string, list: seq<string>) returns (found: bool)
    ensures found <==> value in list
  {
    for i := 0 to |list|
      invariant value !in list[..i]
    {
      if value == list[i] {
        return true;
      }
    }
    return false;
  }

  /** Unique(values): puts every value into a map and compares sizes. */
  method Unique<T(==)>(values: seq<T>) returns (unique: bool)
    ensures unique <==> Distinct(values)
  {
    var uniqueValues: map<T, bool> := map[];
    for i := 0 to |values|
      invariant uniqueValues.Keys == Elements(values[..i])
    {
      assert values[..i + 1] == values[..i] + [values[i]];
      uniqueValues := uniqueValues[values[i] := true];
    }
    assert values[..|values|] == values;
    DistinctIffCard(values);
    unique := |values| == |uniqueValues|;
  }

  /** One call Check(ok, key, message). */
  datatype CheckCall = CheckCall(ok: bool, key: string, message: string)

  /** The error map after a sequence of Check calls, made in order. */
  function RunChecks(errors: map<string, string>, checks: seq<CheckCall>): map<string, string>
    decreases |checks|
  {
    if checks == [] then errors
    else RunChecks(Checked(errors, checks[0].ok, checks[0].key, checks[0].message), checks[1..])
  }

  /** Running one more check after a run is the run extended by that check. */
  lemma {:induction false} RunChecksSnoc(errors: map<string, string>, checks: seq<CheckCall>, c: CheckCall)
    ensures RunChecks(errors, checks + [c]) == Checked(RunChecks(errors, checks), c.ok, c.key, c.message)
    decreases |checks|
  {
    if checks == [] {
      assert [] + [c] == [c];
      assert [c][1..] == [];
    } else {
      var d := checks[0];
      assert (checks + [c])[1..] == checks[1..] + [c];
      RunChecksSnoc(Checked(errors, d.ok, d.key, d.message), checks[1..], c);
    }
  }

  /** A non-empty run starts with its first check. */
  lemma RunChecksCons(errors: map<string, string>, checks: seq<CheckCall>)
    requires checks != []
    ensures RunChecks(errors, checks)
         == RunChecks(Checked(errors, checks[0].ok, checks[0].key, checks[0].message), checks[1..])
  {
  }

  /** Running two lists of checks one after the other is running their
      concatenation. */
  lemma {:induction false} RunChecksAppend(errors: map<string, string>, a: seq<CheckCall>, b: seq<CheckCall>)
    ensures RunChecks(errors, a + b) == RunChecks(RunChecks(errors, a), b)
    decreases |a|
  {
    if a == [] {
      assert a + b == b;
    } else {
      assert (a + b)[1..] == a[1..] + b;
      RunChecksAppend(Checked(errors, a[0].ok, a[0].key, a[0].message), a[1..], b);
    }
  }

  /** Keys are never removed, and a recorded message is never replaced. */
  lemma {:induction false} ChecksOnlyGrow(errors: map<string, string>, checks: seq<CheckCall>)
    ensures var r := RunChecks(errors, checks);
      errors.Keys <= r.Keys && forall k :: k in errors ==> r[k] == errors[k]
    decreases |checks|
  {
    if checks != [] {
      ChecksOnlyGrow(Checked(errors, checks[0].ok, checks[0].key, checks[0].message), checks[1..]);
    }
  }

  /** A run of checks adds keys only for checks that fail. */
  lemma {:induction false} ChecksKeys(errors: map<string, string>, checks: seq<CheckCall>)
    ensures RunChecks(errors, checks).Keys == errors.Keys + set i | 0 <= i < |checks| && !checks[i].ok :: checks[i].key
    decreases |checks|
  {
    if checks != [] {
      var c := checks[0];
      ChecksKeys(Checked(errors, c.ok, c.key, c.message), checks[1..]);
      var failing := set i | 0 <= i < |checks| && !checks[i].ok :: checks[i].key;
      var failingRest := set i | 0 <= i < |checks[1..]| && !checks[1..][i].ok :: checks[1..][i].key;
      assert failing == (if c.ok then {} else {c.key}) + failingRest by {
        forall k | k in failing ensures k in (if c.ok then {} else {c.key}) + failingRest {
          var i :| 0 <= i < |checks| && !checks[i].ok && checks[i].key == k;
          if i > 0 {
            assert checks[1..][i - 1] == checks[i];
          }
        }
        forall k | k in failingRest ensures k in failing {
          var i :| 0 <= i < |checks[1..]| && !checks[1..][i].ok && checks[1..][i].key == k;
          assert checks[i + 1] == checks[1..][i];
        }
      }
    }
  }

  /** A validator that starts valid is still valid after a run of checks
      exactly when every check passed. */
  lemma {:induction false} ChecksValid(errors: map<string, string>, checks: seq<CheckCall>)
    ensures RunChecks(errors, checks) == map[] <==> errors == map[] && forall i :: 0 <= i < |checks| ==> checks[i].ok
    decreases |checks|
  {
    if checks != [] {
      var c := checks[0];
      var e1 := Checked(errors, c.ok, c.key, c.message);
      ChecksValid(e1, checks[1..]);
      assert e1 == map[] <==> errors == map[] && c.ok by {
        if !c.ok {
          assert c.key in e1;
        }
      }
      assert (forall i :: 0 <= i < |checks| ==> checks[i].ok)
        <==> c.ok && forall i :: 0 <= i < |checks[1..]| ==> checks[1..][i].ok by {
        if c.ok && forall i :: 0 <= i < |checks[1..]| ==> checks[1..][i].ok {
          forall i | 1 <= i < |checks| ensures checks[i].ok {
            assert checks[i] == checks[1..][i - 1];
          }
        }
      }
    }
  }

  /** The message under a key is the one of the first failing check for that
      key, unless the key was already present. */
  lemma {:induction false} FirstMessageWins(errors: map<string, string>, checks: seq<CheckCall>, n: nat)
    requires n < |checks| && !checks[n].ok && checks[n].key !in errors
    requires forall i :: 0 <= i < n ==> checks[i].ok || checks[i].key != checks[n].key
    ensures var r := RunChecks(errors, checks);
      checks[n].key in r && r[checks[n].key] == checks[n].message
    decreases n
  {
    var c := checks[0];
    var e1 := Checked(errors, c.ok, c.key, c.message);
    if n == 0 {
      ChecksOnlyGrow(e1, checks[1..]);
    } else {
      forall i | 0 <= i < n - 1
        ensures checks[1..][i].ok || checks[1..][i].key != checks[1..][n - 1].key
      {
        assert checks[1..][i] == checks[i + 1];
      }
      FirstMessageWins(e1, checks[1..], n - 1);
    }
  }
}
