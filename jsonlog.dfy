/** internals/jsonlog/jsonlog.go: a levelled logger writing one JSON record
    per line. */
module JsonLog {
  import opened Wrappers

  /** Level is an int8. */
  newtype Level = x: int | -128 <= x < 128

  const LevelInfo: Level := 0
  const LevelError: Level := 1
  const LevelFatal: Level := 2
  const LevelOff: Level := 3

  /** Level.String. */
  function LevelString(l: Level): (s: string)
    ensures s != "" <==> LevelInfo <= l <= LevelFatal
    ensures l == LevelInfo ==> s == "INFO"
    ensures l == LevelError ==> s == "ERROR"
    ensures l == LevelFatal ==> s == "FATAL"
  {
    if l == LevelInfo then "INFO"
    else if l == LevelError then "ERROR"
    else if l == LevelFatal then "FATAL"
    else ""
  }

  /** One line of output: the JSON object print marshals, then a newline.
      The trace field is omitted (None) below the error level. */
  datatype Record = Record(
    level: string,
    time: string,
    message: string,
    properties: map<string, string>,
    trace: Option<string>)

  /** The record print builds; the time and the stack are parameters. */
  function MakeRecord(level: Level, message: string, properties: map<string, string>, now: string, stack: string): (r: Record)
    ensures r.level == LevelString(level) && r.message == message && r.properties == properties
    ensures r.trace.Some? <==> level >= LevelError
    ensures r.trace.Some? ==> r.trace.value == stack
  {
    Record(LevelString(level), now, message, properties, if level >= LevelError then Some(stack) else None)
  }

  /** Whether a logger with that minimum level writes a message of that level. */
  predicate Emits(level: Level, minLevel: Level)
  {
    level >= minLevel
  }

  /** Info < Error < Fatal < Off, so a logger at Off writes nothing that
      PrintInfo, PrintError, PrintFatal or Write produce, and a logger at
      Info writes all of them. */
  lemma LevelOrder()
    ensures LevelInfo < LevelError < LevelFatal < LevelOff
    ensures forall l :: l in [LevelInfo, LevelError, LevelFatal] ==> !Emits(l, LevelOff) && Emits(l, LevelInfo)
  {
  }

  class Logger {
    var out: seq<Record>
    const minLevel: Level

    constructor (minLevel: Level)
      ensures this.minLevel == minLevel && out == []
    {
      this.minLevel := minLevel;
      out := [];
    }

    /** print: below the minimum level nothing is written; otherwise exactly
        one record is appended. */
    method Print(level: Level, message: string, properties: map<string, string>, now: string, stack: string)
      returns (wrote: bool)
      modifies this
      ensures wrote <==> Emits(level, minLevel)
      ensures !wrote ==> out == old(out)
      ensures wrote ==> out == old(out) + [MakeRecord(level, message, properties, now, stack)]
    {
      if level < minLevel {
        return false;
      }
      var r := Record(LevelString(level), now, message, properties, None);
      if level >= LevelError {
        r := r.(trace := Some(stack));
      }
      out := out + [r];
      return true;
    }

    method PrintInfo(message: string, properties: map<string, string>, now: string, stack: string)
      modifies this
      ensures Emits(LevelInfo, minLevel) ==> out == old(out) + [MakeRecord(LevelInfo, message, properties, now, stack)]
      ensures !Emits(LevelInfo, minLevel) ==> out == old(out)
    {
      var _ := Print(LevelInfo, message, properties, now, stack);
    }

    method PrintError(err: string, properties: map<string, string>, now: string, stack: string)
      modifies this
      ensures Emits(LevelError, minLevel) ==> out == old(out) + [MakeRecord(LevelError, err, properties, now, stack)]
      ensures !Emits(LevelError, minLevel) ==> out == old(out)
    {
      var _ := Print(LevelError, err, properties, now, stack);
    }

    /** Write: the logger as an io.Writer logs the bytes at the error level,
        with no properties. */
    method Write(message: string, now: string, stack: string) returns (wrote: bool)
      modifies this
      ensures wrote <==> Emits(LevelError, minLevel)
      ensures wrote ==> out == old(out) + [MakeRecord(LevelError, message, map[], now, stack)]
      ensures wrote ==> out[|out| - 1].trace == Some(stack) && out[|out| - 1].level == "ERROR"
      ensures !wrote ==> out == old(out)
    {
      wrote := Print(LevelError, message, map[], now, stack);
    }
  }
}
