/** internals/models/runtime.go: a film's running time, which travels in
    JSON as the string "<minutes> mins". */
module Runtime {
  import opened Wrappers
  import opened Strings

  /** Runtime is an int32. */
  type Int32 = x: int | -0x8000_0000 <= x < 0x8000_0000

  /** The JSON value given to UnmarshalJSON, already decoded by the JSON
      library: a string, null, or any other kind of value. */
  datatype JsonValue = JsonString(s: string) | JsonNull | JsonOther

  /** NotAString is the error json.Unmarshal reports when the value cannot
      be stored in a Go string. */
  datatype UnmarshalError = NotAString | InvalidRuntimeFormat

  /** The text after JSON decoding: split on single spaces, there must be
      exactly two parts, the second "mins", the first a base-10 int32. */
  function ParseRuntime(s: string): Result<Int32, UnmarshalError>
  {
    var parts := Split(s, ' ');
    if |parts| != 2 || parts[1] != "mins" then Err(InvalidRuntimeFormat)
    else match ParseInt(parts[0], Bits32)
      case None => Err(InvalidRuntimeFormat)
      case Some(n) => Ok(n)
  }

  /** UnmarshalJSON on a receiver holding current: the new receiver value and
      the error returned. The receiver is written only on success. */
  function UnmarshalJSON(current: Int32, j: JsonValue): (r: (Int32, Option<UnmarshalError>))
    ensures r.1.Some? ==> r.0 == current
    ensures j.JsonOther? ==> r.1 == Some(NotAString)
    ensures j.JsonNull? ==> r.1 == Some(InvalidRuntimeFormat)
    ensures r.1.None? <==> j.JsonString? && ParseRuntime(j.s).Ok?
    ensures r.1.None? ==> r.0 == ParseRuntime(j.s).value
  {
    match j
    case JsonOther => (current, Some(NotAString))
    // null leaves the intermediate Go string empty
    case JsonNull => (current, Some(InvalidRuntimeFormat))
    case JsonString(s) =>
      match ParseRuntime(s)
      case Ok(n) => (n, None)
      case Err(e) => (current, Some(e))
  }

  /** A number text without spaces followed by " mins" is accepted exactly
      when the number text is a base-10 int32, and then yields its value. */
  lemma ParseRuntimeOfMins(t: string)
    requires ' ' !in t
    ensures ParseRuntime(t + " mins") ==
      match ParseInt(t, Bits32)
      case Some(n) => Ok(n)
      case None => Err(InvalidRuntimeFormat)
  {
    assert t + " mins" == t + [' '] + "mins";
    SplitTwo(t, ' ', "mins");
  }

  /** Every accepted text is a space-free number text followed by " mins". */
  lemma ParseRuntimeShape(s: string)
    requires ParseRuntime(s).Ok?
    ensures var t := Split(s, ' ')[0];
      ' ' !in t && s == t + " mins" && ParseInt(t, Bits32) == Some(ParseRuntime(s).value)
  {
    SplitTwoShape(s, ' ');
    assert Split(s, ' ')[0] + [' '] + "mins" == Split(s, ' ')[0] + " mins";
  }

  /** "120 mins" is 120 minutes. */
  lemma AcceptsMinutes()
    ensures UnmarshalJSON(0, JsonString("120 mins")) == (120, None)
  {
    assert ParseInt("120", Bits32) == Some(120) by {
      assert "120" == ['1', '2', '0'];
      assert DigitsValue("120") == 120 by {
        assert "120"[..2] == "12" && "12"[..1] == "1" && "1"[..0] == "";
      }
    }
    assert "120 mins" == "120" + " mins";
    ParseRuntimeOfMins("120");
  }

  /** A number without a unit and a unit without the space are format errors. */
  lemma RejectsMissingSpace()
    ensures UnmarshalJSON(0, JsonString("120")).1 == Some(InvalidRuntimeFormat)
    ensures UnmarshalJSON(0, JsonString("120mins")).1 == Some(InvalidRuntimeFormat)
  {
    assert |Split("120", ' ')| == 1 by {
      SplitWithoutSep("120", ' ');
    }
    assert ParseRuntime("120").Err?;
    assert |Split("120mins", ' ')| == 1 by {
      SplitWithoutSep("120mins", ' ');
    }
    assert ParseRuntime("120mins").Err?;
  }

  /** A non-number before the unit is a format error. */
  lemma RejectsNonNumber()
    ensures UnmarshalJSON(0, JsonString("abc mins")).1 == Some(InvalidRuntimeFormat)
  {
    assert ParseInt("abc", Bits32) == None by {
      assert !IsDigit("abc"[0]);
    }
    assert "abc mins" == "abc" + " mins";
    ParseRuntimeOfMins("abc");
  }

  /** A unit other than "mins" is a format error. */
  lemma RejectsOtherUnit()
    ensures UnmarshalJSON(0, JsonString("120 seconds")).1 == Some(InvalidRuntimeFormat)
  {
    assert Split("120 seconds", ' ') == ["120", "seconds"] by {
      assert "120 seconds" == "120" + [' '] + "seconds";
      SplitTwo("120", ' ', "seconds");
    }
    assert ParseRuntime("120 seconds").Err?;
  }

  /** A JSON number is rejected before any splitting. */
  lemma RejectsNumber(current: Int32)
    ensures UnmarshalJSON(current, JsonOther) == (current, Some(NotAString))
  {
  }
}
