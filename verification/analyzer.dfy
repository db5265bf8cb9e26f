/**
 * The ThermalAnalyzer object: parseInputArguments stores the parsed record and
 * the logger in its fields, and the mode handlers issue their calls one after
 * the other. Every call, log record and usage error is appended to `trace`.
 */
module Analyzer {
  import opened Common
  import opened Levels
  import opened Grammar
  import opened Events
  import opened Logging
  import opened Dispatch

  class ThermalAnalyzer<F> {
    /** self.args, set by parseInputArguments. */
    var args: Option<Args<F>>
    /** self.logger, set by parseInputArguments. */
    var logger: Logger?
    /** Everything the object has done so far, in order. */
    var trace: seq<Event<F>>

    constructor ()
      ensures args == None && logger == null && trace == []
    {
      args := None;
      logger := null;
      trace := [];
    }

    /** create_logger: a logger at the chosen level with a console and an optional file handler. */
    method CreateLogger(logFile: Option<Path>, severity: Option<Severity>) returns (logger: Logger)
      ensures fresh(logger)
      ensures logger.level == ConsoleLevel(severity)
      ensures logger.handlers == Handlers(logFile, severity)
    {
      logger := new Logger();
      var console := Handler(Console, NOTSET);
      if severity.None? {
        logger.SetLevel(STATUS);
        console := console.(level := STATUS);
      } else {
        logger.SetLevel(LevelOf(severity.value));
        console := console.(level := LevelOf(severity.value));
      }
      logger.AddHandler(console);
      if logFile.Some? {
        var file := Handler(LogFile(logFile.value), NOTSET);
        if severity.None? {
          file := file.(level := INFO);
        } else {
          file := file.(level := LevelOf(severity.value));
        }
        logger.AddHandler(file);
      }
    }

    /**
     * parseInputArguments: a refused command line stops the process with a
     * usage error; otherwise the severity is chosen, the logger is built and
     * the record is stored.
     */
    method ParseInputArguments(cmd: Args<F>) returns (accepted: bool)
      modifies this
      ensures accepted == GrammarAccepts(cmd)
      ensures !accepted ==>
                trace == old(trace) + [UsageExit(Rejected)] && args == old(args) && logger == old(logger)
      ensures accepted ==> trace == old(trace) && args == Some(cmd) && logger != null && fresh(logger)
      ensures accepted ==>
                var s := ResolveSeverity(cmd.verbose, cmd.quiet, cmd.debug);
                logger.level == ConsoleLevel(s) && logger.handlers == Handlers(cmd.log, s)
    {
      if !GrammarAccepts(cmd) {
        trace := trace + [UsageExit(Rejected)];
        return false;
      }
      var severity: Option<Severity>;
      if cmd.verbose {
        severity := Some(Info);
      } else if cmd.quiet {
        severity := Some(Warning);
      } else if cmd.debug {
        severity := Some(Debug);
      } else {
        severity := None;
      }
      var l := CreateLogger(cmd.log, severity);
      logger := l;
      args := Some(cmd);
      accepted := true;
    }

    method ModeJsonPreprocess()
      requires logger != null
      modifies this`trace
      ensures trace == old(trace) + [Log(CRITICAL, JsonNotImplemented)]
    {
      trace := trace + [Log(CRITICAL, JsonNotImplemented)];
    }

    method ModeGdsPreprocess()
      requires args.Some? && args.value.gdsFile.Some?
      modifies this`trace
      ensures trace == old(trace) + [CreateNpzFromGds(args.value.gdsFile.value, args.value.outDir)]
    {
      var outDir := args.value.outDir;
      var gdsFile := args.value.gdsFile.value;
      trace := trace + [CreateNpzFromGds(gdsFile, outDir)];
    }

    method PreprocessGdsOptions()
      requires args.Some? && logger != null
      modifies this`trace
      ensures trace == old(trace) + PreprocessOutcome(args.value).events
    {
      if args.value.jsonFile.Some? {
        ModeJsonPreprocess();
      } else if args.value.gdsFile.Some? {
        ModeGdsPreprocess();
      } else {
        trace := trace + [Log(CRITICAL, UndefinedPreprocessState)];
      }
    }

    method SimulateOptions()
      requires args.Some? && SimulateReady(args.value) && logger != null
      modifies this`trace
      ensures trace == old(trace) + SimulateOutcome(args.value).events
    {
      var a := args.value;
      trace := trace + [Log(DEBUG, TMaxIs(a.tMax.value))];
      trace := trace + [Log(DEBUG, TStepIs(a.tStep.value))];
      trace := trace + [Log(DEBUG, PwLampIs(a.pwLamp.value))];
      if a.npzFile.Some? {
        trace := trace + [Build(a.npzFile.value, a.resolution, a.outDir)];
      } else if a.test.Some? {
        trace := trace + [BuildTest(a.test.value, a.resolution, a.outDir)];
      }
      trace := trace + [RunSolver(a.tMax.value, a.tStep.value, a.pwLamp.value)];
    }

    /**
     * VisualizeOptions: the emissivity plot as soon as -e and -r are known,
     * then the length-vs-* block. `isFile` answers Path.is_file.
     */
    method VisualizeOptions(isFile: Path -> bool) returns (ending: Ending)
      requires args.Some? && logger != null
      modifies this`trace
      ensures trace == old(trace) + VisualizeOutcome(args.value, isFile).events
      ensures ending == VisualizeOutcome(args.value, isFile).ending
    {
      var a := args.value;
      if a.npzFile.Some? {
        if a.resolution.None? {
          // parser.error raises SystemExit: the `return` that follows it is never reached
          trace := trace + [UsageExit(ResolutionRequired)];
          assert VisualizeOutcome(a, isFile).events == [UsageExit(ResolutionRequired)];
          return Exited;
        }
        trace := trace + [VisualizeEmissivity(a.npzFile.value, a.resolution.value)];
      }
      assert trace == old(trace) + EmissivityCall(a);
      ghost var o := VisualizeOutcome(a, isFile);
      assert o.events == EmissivityCall(a) + PlotsOutcome(a, isFile).events;
      ending := PlotSolution(isFile);
      assert trace == old(trace) + o.events;
    }

    /**
     * The length-vs-* block of VisualizeOptions and the final show. The
     * source's guard compares the store_true flags lvt, lvh and lvw with None
     * and always holds, so the block is entered unconditionally.
     */
    method PlotSolution(isFile: Path -> bool) returns (ending: Ending)
      requires args.Some? && logger != null
      modifies this`trace
      ensures trace == old(trace) + PlotsOutcome(args.value, isFile).events
      ensures ending == PlotsOutcome(args.value, isFile).ending
    {
      var a := args.value;
      if a.solFile.None? {
        // parser.error raises SystemExit
        trace := trace + [UsageExit(SolutionRequired)];
        return Exited;
      }
      if !isFile(a.solFile.value) {
        trace := trace + [Log(ERROR, SolutionFileMissing)];
        return EarlyReturn;
      }
      trace := trace + [LoadSolutionFile(a.solFile.value, a.outDir)];
      ghost var loaded := trace;
      ghost var plots: seq<Event<F>> := [];
      if a.lvw {
        trace := trace + [VisualizeLvW(a.tPoint)];
        plots := plots + [VisualizeLvW(a.tPoint)];
      }
      if a.lvh {
        trace := trace + [VisualizeLvH(a.tPoint)];
        plots := plots + [VisualizeLvH(a.tPoint)];
      }
      if a.lvt {
        trace := trace + [VisualizeLvT];
        plots := plots + [VisualizeLvT];
      }
      assert trace == loaded + plots;
      assert plots == PlotCalls(a);
      trace := trace + [Show];
      ending := Completed;
      assert trace == old(trace) + ([LoadSolutionFile(a.solFile.value, a.outDir)] + plots + [Show]);
    }

    /** run: parse the command line, then run the handler of the chosen mode. */
    method Run(cmd: Args<F>, isFile: Path -> bool) returns (ending: Ending)
      modifies this
      ensures trace == old(trace) + RunOutcome(cmd, isFile).events
      ensures ending == RunOutcome(cmd, isFile).ending
      ensures !GrammarAccepts(cmd) ==> args == old(args) && logger == old(logger)
      ensures GrammarAccepts(cmd) ==> args == Some(cmd) && logger != null && fresh(logger)
      ensures GrammarAccepts(cmd) ==>
                var s := ResolveSeverity(cmd.verbose, cmd.quiet, cmd.debug);
                logger.level == ConsoleLevel(s) && logger.handlers == Handlers(cmd.log, s)
    {
      var accepted := ParseInputArguments(cmd);
      if !accepted {
        return Exited;
      }
      match args.value.mode.value
      case PreprocessGDS =>
        PreprocessGdsOptions();
        ending := Completed;
      case Simulate =>
        SimulateOptions();
        ending := Completed;
      case Visualize =>
        ending := VisualizeOptions(isFile);
    }
  }
}
