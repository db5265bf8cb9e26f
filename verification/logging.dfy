/**
 * The logger that ThermalAnalyzer.create_logger builds: its own level and the
 * handlers attached to it, one for the console and one for the log file when
 * a path is given.
 */
module Logging {
  import opened Common
  import opened Levels
  import opened Events

  datatype Sink = Console | LogFile(path: Path)

  /** A handler reduced to where it writes and the least level it emits. */
  datatype Handler = Handler(sink: Sink, level: int)

  /** The handlers create_logger attaches, in the order it attaches them. */
  function Handlers(logFile: Option<Path>, s: Option<Severity>): (hs: seq<Handler>)
    ensures |hs| == (if logFile.Some? then 2 else 1) && hs[0] == Handler(Console, ConsoleLevel(s))
    ensures (exists i :: 0 <= i < |hs| && hs[i].sink.LogFile?) <==> logFile.Some?
    ensures logFile.Some? ==> |hs| == 2 && hs[1] == Handler(LogFile(logFile.value), FileLevel(s))
  {
    var console := Handler(Console, ConsoleLevel(s));
    if logFile.Some? then
      var hs := [console, Handler(LogFile(logFile.value), FileLevel(s))];
      assert hs[1].sink.LogFile?;
      hs
    else
      [console]
  }

  /** The logger named 'TAZ': a level and the handlers attached to it so far. */
  class Logger {
    var level: int
    var handlers: seq<Handler>

    constructor ()
      ensures level == NOTSET && handlers == []
    {
      level := NOTSET;
      handlers := [];
    }

    method SetLevel(l: int)
      modifies this
      ensures level == l && handlers == old(handlers)
    {
      level := l;
    }

    method AddHandler(h: Handler)
      modifies this
      ensures handlers == old(handlers) + [h] && level == old(level)
    {
      handlers := handlers + [h];
    }
  }

  /**
   * Whatever the flags, the log file receives exactly the records the console
   * receives: both handler levels are at most the logger's level, so the
   * file's INFO threshold under no flag never lets an INFO record through.
   */
  lemma FileMirrorsConsole<F>(t: seq<Event<F>>, logFile: Option<Path>, s: Option<Severity>)
    requires logFile.Some?
    ensures var hs := Handlers(logFile, s);
            Received(t, ConsoleLevel(s), hs[1].level) == Received(t, ConsoleLevel(s), hs[0].level)
  {
    ReceivedBelowLoggerLevel(t, ConsoleLevel(s), FileLevel(s), ConsoleLevel(s));
  }

  /** Under no flag, INFO and DEBUG records reach no sink; STATUS and above reach all of them. */
  lemma DefaultLoggerThresholds<F>(logFile: Option<Path>, h: Handler, level: int)
    requires h in Handlers(logFile, None)
    ensures Passes(ConsoleLevel(None), h.level, level) <==> STATUS <= level
    ensures !Passes(ConsoleLevel(None), h.level, INFO) && !Passes(ConsoleLevel(None), h.level, DEBUG)
  {
  }
}
