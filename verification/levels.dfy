/**
 * Numeric logging levels and the choice of severity from the verbosity flags
 * (ThermalAnalyzer.parseInputArguments and ThermalAnalyzer.create_logger).
 */
module Levels {
  import opened Common

  const NOTSET: int := 0
  const DEBUG: int := 10
  const INFO: int := 20
  /** The tool's own level, registered under the name STATUS. */
  const STATUS: int := 25
  const WARNING: int := 30
  const ERROR: int := 40
  const CRITICAL: int := 50

  /** The level names that -v, -q and -d select. */
  datatype Severity = Info | Warning | Debug

  /** The number a level name stands for once it is given to setLevel. */
  function LevelOf(s: Severity): (level: int)
    ensures DEBUG <= level <= WARNING && level != STATUS
  {
    match s
    case Info => INFO
    case Warning => WARNING
    case Debug => DEBUG
  }

  /** The mutually exclusive group -v/-q/-d admits at most one flag. */
  predicate AtMostOne(a: bool, b: bool, c: bool)
  {
    !(a && b) && !(a && c) && !(b && c)
  }

  /** The if/elif chain that turns the flags into a severity; None when no flag is set. */
  function ResolveSeverity(verbose: bool, quiet: bool, debug: bool): (s: Option<Severity>)
    ensures verbose ==> s == Some(Info)
    ensures s == None <==> !verbose && !quiet && !debug
    ensures AtMostOne(verbose, quiet, debug) ==>
              && (s == Some(Info) <==> verbose)
              && (s == Some(Warning) <==> quiet)
              && (s == Some(Debug) <==> debug)
  {
    if verbose then Some(Info)
    else if quiet then Some(Warning)
    else if debug then Some(Debug)
    else None
  }

  /** The level of the logger and of its console handler. */
  function ConsoleLevel(s: Option<Severity>): (level: int)
    ensures s.None? ==> level == STATUS && INFO < level < WARNING
    ensures s.Some? ==> level == LevelOf(s.value)
  {
    if s.None? then STATUS else LevelOf(s.value)
  }

  /** The level of the file handler, when there is one. */
  function FileLevel(s: Option<Severity>): (level: int)
    ensures s.None? ==> level == INFO
    ensures s.Some? ==> level == ConsoleLevel(s)
    ensures level <= ConsoleLevel(s)
  {
    if s.None? then INFO else LevelOf(s.value)
  }

  /**
   * A record of the given level is emitted by a handler only if it clears both
   * the logger's level and the handler's own level.
   */
  predicate Passes(loggerLevel: int, handlerLevel: int, level: int)
  {
    loggerLevel <= level && handlerLevel <= level
  }

  /** What the console accepts for each choice of flag. */
  lemma ConsoleSeverityOrdering(level: int)
    ensures Passes(ConsoleLevel(Some(Debug)), ConsoleLevel(Some(Debug)), level) <==> DEBUG <= level
    ensures Passes(ConsoleLevel(Some(Info)), ConsoleLevel(Some(Info)), level) <==> INFO <= level
    ensures Passes(ConsoleLevel(Some(Warning)), ConsoleLevel(Some(Warning)), level) <==> WARNING <= level
    ensures !Passes(ConsoleLevel(Some(Warning)), ConsoleLevel(Some(Warning)), STATUS)
    ensures !Passes(ConsoleLevel(Some(Warning)), ConsoleLevel(Some(Warning)), INFO)
    ensures Passes(ConsoleLevel(None), ConsoleLevel(None), level) <==> STATUS <= level
  {
  }

  /**
   * With no flag the file handler is set to INFO, but the logger stays at STATUS,
   * so the file effectively receives STATUS and above; with any flag, the file
   * and the console accept the same levels.
   */
  lemma FileEffectiveThreshold(s: Option<Severity>, level: int)
    ensures s.None? ==> (Passes(ConsoleLevel(s), FileLevel(s), level) <==> STATUS <= level)
    ensures s.None? ==> !Passes(ConsoleLevel(s), FileLevel(s), INFO) && FileLevel(s) == INFO
    ensures Passes(ConsoleLevel(s), FileLevel(s), level) <==> Passes(ConsoleLevel(s), ConsoleLevel(s), level)
  {
  }
}
