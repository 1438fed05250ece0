/**
 * Logger: the level handling of the library's spdlog wrapper. A level name
 * is read case-insensitively by its first character; anything else falls
 * back to "critical" after a warning. The console and file sinks are
 * reduced to the level the wrapped logger filters on and the list of
 * messages that pass that filter.
 */
module Logging {
  import opened Wrappers

  /** spdlog::level::level_enum, from the most to the least verbose. */
  datatype Level = Trace | Debug | Info | Warn | Err | Critical | Off

  /** The numeric value of a level (trace = 0 ... off = 6). */
  function Severity(l: Level): nat {
    match l
    case Trace => 0
    case Debug => 1
    case Info => 2
    case Warn => 3
    case Err => 4
    case Critical => 5
    case Off => 6
  }

  /** A logger at level `threshold` emits a message at level `l` when `l` is at least as severe. */
  predicate Passes(l: Level, threshold: Level) {
    Severity(l) >= Severity(threshold)
  }

  /** ::tolower in the "C" locale: only 'A'..'Z' change. */
  function ToLower(c: char): (d: char)
    ensures 'A' <= c <= 'Z' ==> d as int == c as int + 32 && 'a' <= d <= 'z'
    ensures !('A' <= c <= 'Z') ==> d == c
  {
    if 'A' <= c <= 'Z' then (c as int + 32) as char else c
  }

  /** The string with every character lowered. */
  function Lowered(s: string): (t: string)
    ensures |t| == |s|
    ensures forall i :: 0 <= i < |s| ==> t[i] == ToLower(s[i])
  {
    seq(|s|, i requires 0 <= i < |s| => ToLower(s[i]))
  }

  /** std::string::operator[](0): the NUL character when the string is empty. */
  function First(s: string): char {
    if |s| == 0 then '\0' else s[0]
  }

  /**
   * The level a lowered name selects, testing the first character against
   * f, e, w, i, d, t in that order; None when it is none of them. (Each
   * full-name comparison in the source is implied by its first-character test.)
   */
  function LevelFor(lowered: string): Option<Level> {
    var c := First(lowered);
    if lowered == "fatal" || c == 'f' then Some(Critical)
    else if lowered == "error" || c == 'e' then Some(Err)
    else if lowered == "warn" || c == 'w' then Some(Warn)
    else if lowered == "info" || c == 'i' then Some(Info)
    else if lowered == "debug" || c == 'd' then Some(Debug)
    else if lowered == "trace" || c == 't' then Some(Trace)
    else None
  }

  /** The level `set_level(name)` ends at: the selected one, or critical for an illegal name. */
  function ChosenLevel(name: string): Level {
    match LevelFor(Lowered(name))
    case Some(l) => l
    case None => Critical
  }

  /** The warning `set_level` logs for an illegal name. */
  function IllegalLevelMessage(lowered: string): string {
    "Illegal log level = " + lowered + ", using log level FATAL"
  }

  /** A name is legal exactly when it is non-empty and starts with one of f, e, w, i, d, t in either case. */
  lemma LegalNames(name: string)
    ensures LevelFor(Lowered(name)).Some? <==> |name| > 0 && ToLower(name[0]) in "fewidt"
  {
    var lowered := Lowered(name);
    if |name| > 0 {
      assert First(lowered) == ToLower(name[0]);
    } else {
      assert lowered == [];
    }
  }

  /** Only the first character counts, and its case does not. */
  lemma FirstCharacterDecides(a: string, b: string)
    requires |a| > 0 && |b| > 0 && ToLower(a[0]) == ToLower(b[0])
    ensures ChosenLevel(a) == ChosenLevel(b)
  {
    assert First(Lowered(a)) == ToLower(a[0]);
    assert First(Lowered(b)) == ToLower(b[0]);
    LegalNames(a);
    LegalNames(b);
  }

  /** Lowering the name first changes nothing: set_level is case-insensitive. */
  lemma CaseInsensitive(name: string)
    ensures ChosenLevel(Lowered(name)) == ChosenLevel(name)
  {
    assert Lowered(Lowered(name)) == Lowered(name);
  }

  /** The letters select critical, err, warn, info, debug and trace, in either case. */
  lemma LevelLetters(name: string)
    requires |name| > 0
    ensures ToLower(name[0]) == 'f' ==> ChosenLevel(name) == Critical
    ensures ToLower(name[0]) == 'e' ==> ChosenLevel(name) == Err
    ensures ToLower(name[0]) == 'w' ==> ChosenLevel(name) == Warn
    ensures ToLower(name[0]) == 'i' ==> ChosenLevel(name) == Info
    ensures ToLower(name[0]) == 'd' ==> ChosenLevel(name) == Debug
    ensures ToLower(name[0]) == 't' ==> ChosenLevel(name) == Trace
  {
    assert First(Lowered(name)) == ToLower(name[0]);
  }

  /** set_level never selects "off": every name ends at a level that still emits critical messages. */
  lemma CriticalAlwaysEmitted(name: string)
    ensures Passes(Critical, ChosenLevel(name))
    ensures ChosenLevel(name) != Off
  {
  }

  class Logger {
    /** `level_` */
    var level: Level
    /** The level of the wrapped spdlog logger `logger_`. */
    var sinkLevel: Level
    /** The messages the wrapped logger has emitted, with their levels. */
    var emitted: seq<(Level, string)>

    /** `logger_` filters on `level_`. */
    ghost predicate Valid()
      reads this
    {
      sinkLevel == level
    }

    /** spdlog's logger: emits `msg` only when its level passes the filter. */
    method Log(l: Level, msg: string)
      modifies this`emitted
      ensures emitted == old(emitted) + (if Passes(l, sinkLevel) then [(l, msg)] else [])
    {
      if Passes(l, sinkLevel) {
        emitted := emitted + [(l, msg)];
      }
    }

    /**
     * Logger::Logger: the console logger at level critical (through
     * set_level("FATAL")), nothing emitted yet.
     */
    constructor ()
      ensures Valid()
      ensures level == Critical && emitted == []
    {
      level, sinkLevel, emitted := Off, Off, [];
      new;
      SetLevel("FATAL");
    }

    /**
     * Logger::set_level: lowers the name in place, then picks the level by
     * its first character. An illegal name first sets the level to warn, so
     * the warning about it is emitted, and then ends at critical. The wrapped
     * logger's level follows.
     */
    method SetLevel(levelIn: string)
      modifies this
      ensures Valid()
      ensures level == ChosenLevel(levelIn)
      ensures LevelFor(Lowered(levelIn)).Some? ==> emitted == old(emitted)
      ensures LevelFor(Lowered(levelIn)).None? ==>
        emitted == old(emitted) + [(Warn, IllegalLevelMessage(Lowered(levelIn)))]
      decreases if LevelFor(Lowered(levelIn)).None? then 1 else 0
    {
      var name := levelIn;
      for i := 0 to |name|
        invariant |name| == |levelIn|
        invariant forall j :: 0 <= j < i ==> name[j] == ToLower(levelIn[j])
        invariant forall j :: i <= j < |name| ==> name[j] == levelIn[j]
      {
        name := name[i := ToLower(name[i])];
      }
      assert name == Lowered(levelIn);
      var c := if |name| == 0 then '\0' else name[0];
      if name == "fatal" || c == 'f' {
        level := Critical;
      } else if name == "error" || c == 'e' {
        level := Err;
      } else if name == "warn" || c == 'w' {
        level := Warn;
      } else if name == "info" || c == 'i' {
        level := Info;
      } else if name == "debug" || c == 'd' {
        level := Debug;
      } else if name == "trace" || c == 't' {
        level := Trace;
      } else {
        assert LevelFor(Lowered("WARN")) == Some(Warn);
        SetLevel("WARN");
        Log(Warn, IllegalLevelMessage(name));
        level := Critical;
      }
      sinkLevel := level;
    }

    /** Logger::debug_enabled: exactly when debug messages pass the level filter. */
    function DebugEnabled(): (r: bool)
      reads this
      ensures r <==> Passes(Debug, level)
    {
      level == Debug || level == Trace
    }
  }

  /**
   * LOG_CONFIG, level part: an empty level string leaves the logger alone;
   * any other is handed to set_level.
   */
  method Config(logger: Logger, levelStr: string)
    modifies logger
    ensures levelStr == [] ==> unchanged(logger)
    ensures levelStr != [] ==> logger.Valid() && logger.level == ChosenLevel(levelStr)
    ensures levelStr != [] && LevelFor(Lowered(levelStr)).Some? ==> logger.emitted == old(logger.emitted)
    ensures levelStr != [] && LevelFor(Lowered(levelStr)).None? ==>
      logger.emitted == old(logger.emitted) + [(Warn, IllegalLevelMessage(Lowered(levelStr)))]
  {
    if |levelStr| > 0 {
      logger.SetLevel(levelStr);
    }
  }
}
