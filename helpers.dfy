/** cmd/api/helpers.go: reading list-query parameters from the URL query. */
module Helpers {
  import opened Wrappers
  import opened Strings
  import opened Validation

  /** url.Values: every key with the values given for it, in order. */
  type QueryValues = map<string, seq<string>>

  /** url.Values.Get: the first value of the key, or "" when there is none. */
  function QueryGet(q: QueryValues, key: string): string
  {
    if key in q && q[key] != [] then q[key][0] else ""
  }

  /** readString: the value of the key, or the default when it is empty. */
  function ReadString(q: QueryValues, key: string, defaultValue: string): (r: string)
    ensures QueryGet(q, key) == "" ==> r == defaultValue
    ensures QueryGet(q, key) != "" ==> r == QueryGet(q, key)
    ensures r == "" ==> defaultValue == ""
  {
    var s := QueryGet(q, key);
    if s == "" then defaultValue else s
  }

  /** readCSV: the comma-separated parts of the value, or the default when
      the value is empty. Joining the parts with commas gives the value back. */
  function ReadCSV(q: QueryValues, key: string, defaultValue: seq<string>): (r: seq<string>)
    ensures QueryGet(q, key) == "" ==> r == defaultValue
    ensures QueryGet(q, key) != "" ==>
      && |r| == Count(QueryGet(q, key), ',') + 1
      && Join(r, ',') == QueryGet(q, key)
      && (forall i :: 0 <= i < |r| ==> ',' !in r[i])
  {
    var csv := QueryGet(q, key);
    if csv == "" then defaultValue else Split(csv, ',')
  }

  /** What readInt yields and whether it records an error: the default with
      no error for an empty value, the parsed value for a decimal integer,
      the default with an error for anything else. */
  function IntParam(q: QueryValues, key: string, defaultValue: int): (r: (int, bool))
  {
    var s := QueryGet(q, key);
    if s == "" then (defaultValue, false)
    else match Atoi(s)
      case None => (defaultValue, true)
      case Some(n) => (n, false)
  }

  /** The message readInt records under the key. */
  const NotAnInteger := "must be an integer value"

  /** The error map after readInt: "must be an integer value" is recorded
      under the key exactly when the value is present but not an integer,
      unless the key already has a message. */
  function IntParamErrors(errors: map<string, string>, q: QueryValues, key: string, defaultValue: int): (r: map<string, string>)
    ensures IntParam(q, key, defaultValue).1 ==> key in r && (key !in errors ==> r[key] == "must be an integer value")
    ensures !IntParam(q, key, defaultValue).1 ==> r == errors
    ensures errors.Keys <= r.Keys <= errors.Keys + {key}
    ensures forall k :: k in errors ==> r[k] == errors[k]
  {
    if IntParam(q, key, defaultValue).1 then AddedError(errors, key, NotAnInteger) else errors
  }

  method ReadInt(q: QueryValues, key: string, defaultValue: int, v: Validator) returns (n: int)
    modifies v
    ensures n == IntParam(q, key, defaultValue).0
    ensures v.errors == IntParamErrors(old(v.errors), q, key, defaultValue)
    ensures IntParam(q, key, defaultValue).1 ==> v.errors == AddedError(old(v.errors), key, NotAnInteger)
    ensures !IntParam(q, key, defaultValue).1 ==> v.errors == old(v.errors)
  {
    var s := QueryGet(q, key);
    if s == "" {
      return defaultValue;
    }
    var parsed := Atoi(s);
    if parsed.None? {
      v.AddError(key, NotAnInteger);
      return defaultValue;
    }
    return parsed.value;
  }

  /** An absent key yields the default and records nothing. */
  lemma IntParamAbsent(q: QueryValues, key: string, defaultValue: int)
    requires key !in q
    ensures IntParam(q, key, defaultValue) == (defaultValue, false)
  {
  }

  /** A 64-bit integer written in decimal is read back as itself. */
  lemma IntParamFormatted(q: QueryValues, key: string, n: int, defaultValue: int)
    requires InRange(n, Bits64)
    requires key in q && q[key] != [] && q[key][0] == FormatInt(n)
    ensures IntParam(q, key, defaultValue) == (n, false)
  {
    ParseFormat(n, Bits64);
  }

  /** A value that does not start with a sign or a digit is not an integer:
      the default is returned and an error is recorded. */
  lemma IntParamRejects(q: QueryValues, key: string, defaultValue: int)
    requires key in q && q[key] != [] && q[key][0] != ""
    requires var c := q[key][0][0]; c != '+' && c != '-' && !IsDigit(c)
    ensures IntParam(q, key, defaultValue) == (defaultValue, true)
  {
  }
}
