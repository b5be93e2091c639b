/**
 * The library's logger: four levels, a configured threshold that is always
 * clamped into range, and lines made of the time, the level name, one
 * `k{v}` per field and the message, joined by single spaces. The clock and
 * `fmt` formatting are outside the model: the formatted time, the rendered
 * field keys and values and the formatted message are inputs.
 */
module Logging {
  import opened Text

  /** `logLevel` is a `uint8`. */
  type LogLevel = l: int | 0 <= l < 0x100

  const LogLevelInfo: LogLevel := 1
  const LogLevelDebug: LogLevel := 2
  const LogLevelError: LogLevel := 3
  const LogLevelFatal: LogLevel := 4

  /** The prefix of the underlying `log.Logger`. */
  const Prefix := "[anorm] "

  /** `logLevelMap`. */
  const LevelNames: map<LogLevel, string> :=
    map[LogLevelInfo := "INFO", LogLevelDebug := "DEBUG", LogLevelError := "ERROR", LogLevelFatal := "FATAL"]

  /** A `logField` with its key and value as `%v` renders them. */
  datatype LogField = LogField(k: string, v: string)

  /** `getValidLevel`: clamps into Info..Fatal. */
  function ValidLevel(level: LogLevel): (r: LogLevel)
    ensures LogLevelInfo <= r <= LogLevelFatal
    ensures LogLevelInfo <= level <= LogLevelFatal ==> r == level
    ensures level < LogLevelInfo ==> r == LogLevelInfo
    ensures level > LogLevelFatal ==> r == LogLevelFatal
  {
    var l := if level < LogLevelInfo then LogLevelInfo else level;
    if l > LogLevelFatal then LogLevelFatal else l
  }

  /** `getLogName`: the name of the clamped level. */
  function LogName(level: LogLevel): (name: string)
    ensures ValidLevel(level) == LogLevelInfo ==> name == "INFO"
    ensures ValidLevel(level) == LogLevelDebug ==> name == "DEBUG"
    ensures ValidLevel(level) == LogLevelError ==> name == "ERROR"
    ensures ValidLevel(level) == LogLevelFatal ==> name == "FATAL"
  {
    LevelNames[ValidLevel(level)]
  }

  function FieldText(f: LogField): string
  {
    f.k + "{" + f.v + "}"
  }

  function FieldTexts(fields: seq<LogField>): (r: seq<string>)
    ensures |r| == |fields|
    ensures forall i :: 0 <= i < |fields| ==> r[i] == FieldText(fields[i])
  {
    if fields == [] then [] else FieldTexts(fields[..|fields| - 1]) + [FieldText(fields[|fields| - 1])]
  }

  /** The words of a line, before joining. */
  function LogWords(now: string, level: LogLevel, fields: seq<LogField>, message: string): seq<string>
  {
    ["[" + now + "]", LogName(level) + " -"] + FieldTexts(fields) + [message]
  }

  /** The line `log` prints (without the logger's prefix and newline). */
  function LogLine(now: string, level: LogLevel, fields: seq<LogField>, message: string): string
  {
    Join(LogWords(now, level, fields, message), " ")
  }

  /** Whether a message at `level` passes the threshold `configured`. */
  predicate Shown(configured: LogLevel, level: LogLevel)
  {
    ValidLevel(level) >= configured
  }

  /** The global `Logger`. */
  class Logger {
    var level: LogLevel
    var timeLayout: string
    /** What the underlying `log.Logger` has written, one entry per `Println`. */
    var output: seq<string>

    /** The threshold is always a clamped level. */
    predicate Valid()
      reads this
    {
      LogLevelInfo <= level <= LogLevelFatal
    }

    constructor()
      ensures Valid()
      ensures level == LogLevelError && timeLayout == "2006-01-02T15:04:05Z07:00" && output == []
    {
      level := LogLevelError;
      timeLayout := "2006-01-02T15:04:05Z07:00";
      output := [];
    }

    /** `SetLogLevel`: stores the clamped level. */
    method SetLogLevel(l: LogLevel)
      modifies this
      ensures Valid()
      ensures level == ValidLevel(l) && timeLayout == old(timeLayout) && output == old(output)
    {
      level := ValidLevel(l);
    }

    /** `SetTimeLayout`. */
    method SetTimeLayout(layout: string)
      modifies this
      ensures timeLayout == layout && level == old(level) && output == old(output)
    {
      timeLayout := layout;
    }

    /**
     * `log`: writes one line iff the clamped level reaches the threshold.
     * `now` is the current time formatted with `timeLayout`.
     */
    method Log(l: LogLevel, fields: seq<LogField>, message: string, now: string)
      modifies this
      ensures level == old(level) && timeLayout == old(timeLayout)
      ensures Shown(level, l) ==> output == old(output) + [Prefix + LogLine(now, l, fields, message) + "\n"]
      ensures !Shown(level, l) ==> output == old(output)
    {
      var lv := ValidLevel(l);
      if lv >= level {
        var logArr: seq<string> := [];
        logArr := logArr + ["[" + now + "]"];
        logArr := logArr + [LogName(lv) + " -"];
        var i := 0;
        while i < |fields|
          invariant 0 <= i <= |fields|
          invariant logArr == ["[" + now + "]", LogName(lv) + " -"] + FieldTexts(fields[..i])
        {
          assert fields[..i + 1][..i] == fields[..i];
          logArr := logArr + [FieldText(fields[i])];
          i := i + 1;
        }
        assert fields[..i] == fields;
        logArr := logArr + [message];
        assert LogName(lv) == LogName(l);
        var logStr := Join(logArr, " ");
        output := output + [Prefix + logStr + "\n"];
      }
    }

    /** `Info`, `Debug`, `Error` and `Fatal` only fix the level; `Fatal` does not stop the program. */
    method Info(fields: seq<LogField>, message: string, now: string)
      modifies this
      ensures level == old(level) && timeLayout == old(timeLayout)
      ensures level <= LogLevelInfo ==> output == old(output) + [Prefix + LogLine(now, LogLevelInfo, fields, message) + "\n"]
      ensures level > LogLevelInfo ==> output == old(output)
    {
      Log(LogLevelInfo, fields, message, now);
    }

    method Error(fields: seq<LogField>, message: string, now: string)
      modifies this
      ensures level == old(level) && timeLayout == old(timeLayout)
      ensures level <= LogLevelError ==> output == old(output) + [Prefix + LogLine(now, LogLevelError, fields, message) + "\n"]
      ensures level > LogLevelError ==> output == old(output)
    {
      Log(LogLevelError, fields, message, now);
    }

    method Fatal(fields: seq<LogField>, message: string, now: string)
      requires Valid()
      modifies this
      ensures level == old(level) && timeLayout == old(timeLayout)
      ensures output == old(output) + [Prefix + LogLine(now, LogLevelFatal, fields, message) + "\n"]
    {
      Log(LogLevelFatal, fields, message, now);
    }

    method Debug(fields: seq<LogField>, message: string, now: string)
      modifies this
      ensures level == old(level) && timeLayout == old(timeLayout)
      ensures level <= LogLevelDebug ==> output == old(output) + [Prefix + LogLine(now, LogLevelDebug, fields, message) + "\n"]
      ensures level > LogLevelDebug ==> output == old(output)
    {
      Log(LogLevelDebug, fields, message, now);
    }
  }

  /** Clamping is idempotent, and the threshold a logger holds is always a valid level. */
  lemma ValidLevelIdempotent(level: LogLevel)
    ensures ValidLevel(ValidLevel(level)) == ValidLevel(level)
  {
  }

  /** A message is shown iff its clamped level is at least the threshold: at Info every level shows. */
  lemma InfoShowsEverything(level: LogLevel)
    ensures Shown(ValidLevel(LogLevelInfo), level)
    ensures Shown(LogLevelError, level) <==> level >= LogLevelError
  {
  }

  /** Joining a first word onto the rest puts one space between them. */
  lemma {:induction false} JoinCons(x: string, rest: seq<string>)
    requires rest != []
    ensures Join([x] + rest, " ") == x + " " + Join(rest, " ")
  {
    assert ([x] + rest)[1..] == rest;
  }

  /** The line is the bracketed time, the level name, a dash, the fields and the message, single-spaced. */
  lemma {:induction false} LogLineShape(now: string, level: LogLevel, fields: seq<LogField>, message: string)
    ensures LogLine(now, level, fields, message)
            == "[" + now + "] " + LogName(level) + " - " + Join(FieldTexts(fields) + [message], " ")
  {
    var rest := FieldTexts(fields) + [message];
    assert LogWords(now, level, fields, message) == ["[" + now + "]"] + ([LogName(level) + " -"] + rest);
    JoinCons("[" + now + "]", [LogName(level) + " -"] + rest);
    JoinCons(LogName(level) + " -", rest);
  }

  /** The line the logger's own test expects at Info with no fields. */
  lemma TestLineNoFields(now: string)
    ensures LogLine(now, LogLevelInfo, [], "hello world") == "[" + now + "] INFO - hello world"
  {
    LogLineShape(now, LogLevelInfo, [], "hello world");
    assert FieldTexts([]) + ["hello world"] == ["hello world"];
  }

  /** Two fields and a message join as `k1{v1} k2{v2} message`. */
  lemma TwoFieldWords(f1: LogField, f2: LogField, message: string)
    ensures Join(FieldTexts([f1, f2]) + [message], " ")
            == f1.k + "{" + f1.v + "} " + f2.k + "{" + f2.v + "} " + message
  {
    var texts := FieldTexts([f1, f2]);
    assert |texts| == 2 && texts[0] == FieldText(f1) && texts[1] == FieldText(f2);
    assert texts + [message] == [FieldText(f1)] + ([FieldText(f2)] + [message]);
    JoinCons(FieldText(f1), [FieldText(f2)] + [message]);
    JoinCons(FieldText(f2), [message]);
    assert Join([message], " ") == message;
  }

  /** The line the logger's own test expects at Debug with two fields. */
  lemma TestLineFields(now: string)
    ensures LogLine(now, LogLevelDebug, [LogField("ID", "1000"), LogField("NAME", "Apple")], "hello world")
            == "[" + now + "] DEBUG - ID{1000} NAME{Apple} hello world"
  {
    LogLineShape(now, LogLevelDebug, [LogField("ID", "1000"), LogField("NAME", "Apple")], "hello world");
    TwoFieldWords(LogField("ID", "1000"), LogField("NAME", "Apple"), "hello world");
    assert LogName(LogLevelDebug) == "DEBUG";
  }
}
