/**
 * What each mode handler of ThermalAnalyzer does, as a function from the
 * parsed record to the trace it produces and the way it ends; and what
 * ThermalAnalyzer.run does with a command line.
 */
module Dispatch {
  import opened Common
  import opened Levels
  import opened Grammar
  import opened Events

  /**
   * A handler returns normally, returns early after logging an error, or a
   * parser error raises SystemExit and the process exits.
   */
  datatype Ending = Completed | EarlyReturn | Exited

  datatype Outcome<F> = Outcome(events: seq<Event<F>>, ending: Ending)

  /**
   * A usage error is the last thing that happens and happens exactly when the
   * process exits; pyplot's show is only reached on a normal return.
   */
  ghost predicate ExitIsFinal<F>(o: Outcome<F>)
  {
    && |o.events| > 0
    && (o.ending == Exited <==> o.events[|o.events| - 1].UsageExit?)
    && (forall i :: 0 <= i < |o.events| - 1 ==> !o.events[i].UsageExit?)
    && (Show in o.events ==> o.ending == Completed)
  }

  /**
   * A trace made of a body with neither a usage error nor a show, closed by
   * one last event, satisfies ExitIsFinal when the ending agrees with it.
   */
  lemma ClosedBy<F>(body: seq<Event<F>>, last: Event<F>, ending: Ending)
    requires forall e :: e in body ==> !e.UsageExit? && !e.Show?
    requires ending == Exited <==> last.UsageExit?
    requires last.Show? ==> ending == Completed
    ensures ExitIsFinal(Outcome(body + [last], ending))
  {
    var t := body + [last];
    forall i | 0 <= i < |t| - 1
      ensures !t[i].UsageExit?
    {
      assert t[i] == body[i];
    }
  }

  /** Every event comes from the handler of the given mode. */
  ghost predicate IssuedBy<F>(o: Outcome<F>, m: Mode)
  {
    forall e :: e in o.events ==> Origin(e) == Some(m)
  }

  // ---------------------------------------------------------------- preprocessGDS

  /** PreprocessGdsOptions, with modeJsonPreprocess and modeGdsPreprocess inlined. */
  function PreprocessOutcome<F>(a: Args<F>): (r: Outcome<F>)
    ensures ExitIsFinal(r) && IssuedBy(r, PreprocessGDS) && r.ending == Completed
    ensures |r.events| == 1
    ensures IsCall(r.events[0]) <==> a.jsonFile.None? && a.gdsFile.Some?
    ensures IsCall(r.events[0]) ==> r.events[0] == CreateNpzFromGds(a.gdsFile.value, a.outDir)
    ensures !IsCall(r.events[0]) ==> r.events[0].Log? && r.events[0].level == CRITICAL
  {
    var e: Event<F> :=
      if a.jsonFile.Some? then Log(CRITICAL, JsonNotImplemented)
      else if a.gdsFile.Some? then CreateNpzFromGds(a.gdsFile.value, a.outDir)
      else Log(CRITICAL, UndefinedPreprocessState);
    ClosedBy([], e, Completed);
    assert [] + [e] == [e];
    Outcome([e], Completed)
  }

  /**
   * A JSON input only logs that it is not implemented; a GDS input makes one
   * call with the GDS path and the output directory; the "undefined state"
   * branch cannot be reached from an accepted command line.
   */
  lemma PreprocessBranches<F>(a: Args<F>)
    requires GrammarAccepts(a) && a.mode == Some(PreprocessGDS)
    ensures a.jsonFile.Some? ==>
              PreprocessOutcome(a).events == [Log(CRITICAL, JsonNotImplemented)]
    ensures a.gdsFile.Some? ==>
              PreprocessOutcome(a).events == [CreateNpzFromGds(a.gdsFile.value, a.outDir)]
    ensures Log(CRITICAL, UndefinedPreprocessState) !in PreprocessOutcome(a).events
  {
  }

  /** Without -j and -g the handler logs a critical message and calls nothing. */
  lemma PreprocessUndefinedState<F>(a: Args<F>)
    requires a.jsonFile.None? && a.gdsFile.None?
    ensures PreprocessOutcome(a).events == [Log(CRITICAL, UndefinedPreprocessState)]
    ensures Calls(PreprocessOutcome(a).events) == []
  {
  }

  // ---------------------------------------------------------------- simulate

  /** The float arguments SimulateOptions formats into its debug lines. */
  predicate SimulateReady<F>(a: Args<F>)
  {
    a.tMax.Some? && a.tStep.Some? && a.pwLamp.Some?
  }

  /** The three debug lines that report t_max, t_step and pw_lamp. */
  function ParameterLines<F>(a: Args<F>): (r: seq<Event<F>>)
    requires SimulateReady(a)
    ensures |r| == 3 && forall e :: e in r ==> e.Log? && e.level == DEBUG
  {
    [Log(DEBUG, TMaxIs(a.tMax.value)), Log(DEBUG, TStepIs(a.tStep.value)),
     Log(DEBUG, PwLampIs(a.pwLamp.value))]
  }

  /** The model builder chosen by SimulateOptions, if any. */
  function BuilderCall<F>(a: Args<F>): (r: seq<Event<F>>)
    ensures |r| <= 1 && forall e :: e in r ==> IsCall(e) && (e.Build? || e.BuildTest?)
  {
    if a.npzFile.Some? then [Build(a.npzFile.value, a.resolution, a.outDir)]
    else if a.test.Some? then [BuildTest(a.test.value, a.resolution, a.outDir)]
    else []
  }

  function SimulateOutcome<F>(a: Args<F>): (r: Outcome<F>)
    requires SimulateReady(a)
    ensures ExitIsFinal(r) && IssuedBy(r, Simulate) && r.ending == Completed
    ensures r.events[|r.events| - 1] == RunSolver(a.tMax.value, a.tStep.value, a.pwLamp.value)
    ensures forall i :: 0 <= i < |r.events| - 1 ==> !r.events[i].RunSolver?
    ensures forall e :: e in r.events && e.Log? ==> e.level == DEBUG
  {
    var run := RunSolver(a.tMax.value, a.tStep.value, a.pwLamp.value);
    ClosedBy(ParameterLines(a) + BuilderCall(a), run, Completed);
    Outcome(ParameterLines(a) + BuilderCall(a) + [run], Completed)
  }

  /**
   * The calls simulate makes: build from the dataset if one is given, else
   * buildTest if a test case is given, then runSolver, last and in every case.
   */
  lemma SimulateCalls<F>(a: Args<F>)
    requires SimulateReady(a)
    ensures var run := RunSolver(a.tMax.value, a.tStep.value, a.pwLamp.value);
            Calls(SimulateOutcome(a).events)
              == if a.npzFile.Some? then [Build(a.npzFile.value, a.resolution, a.outDir), run]
                 else if a.test.Some? then [BuildTest(a.test.value, a.resolution, a.outDir), run]
                 else [run]
  {
    var run := [RunSolver(a.tMax.value, a.tStep.value, a.pwLamp.value)];
    CallsAppend(ParameterLines(a) + BuilderCall(a), run);
    CallsAppend(ParameterLines(a), BuilderCall(a));
    CallsOfNone(ParameterLines(a));
    CallsOfCalls(BuilderCall(a));
    CallsOfCalls(run);
  }

  /** From an accepted command line simulate builds exactly once before it solves. */
  lemma SimulateBuildsOnce<F>(a: Args<F>)
    requires GrammarAccepts(a) && a.mode == Some(Simulate)
    ensures |Calls(SimulateOutcome(a).events)| == 2
    ensures Calls(SimulateOutcome(a).events)[0].Build? <==> a.npzFile.Some?
    ensures Calls(SimulateOutcome(a).events)[0].BuildTest? <==> a.test.Some?
  {
    SimulateCalls(a);
  }

  /**
   * The debug lines reach the console under -d only; under no flag, -v or -q
   * simulate prints nothing through the logger.
   */
  lemma SimulateConsole<F>(a: Args<F>, s: Option<Severity>)
    requires SimulateReady(a)
    ensures Received(SimulateOutcome(a).events, ConsoleLevel(s), ConsoleLevel(s))
              == if s == Some(Debug) then ParameterLines(a) else []
  {
    var l := ConsoleLevel(s);
    var run := [RunSolver(a.tMax.value, a.tStep.value, a.pwLamp.value)];
    ReceivedAppend(ParameterLines(a) + BuilderCall(a), run, l, l);
    ReceivedAppend(ParameterLines(a), BuilderCall(a), l, l);
    ReceivedNone(BuilderCall(a), l, l);
    ReceivedNone(run, l, l);
    if s == Some(Debug) {
      ReceivedAll(ParameterLines(a), l, l);
    } else {
      assert DEBUG < l by { if s.Some? { assert s.value != Debug; } }
      ReceivedNone(ParameterLines(a), l, l);
    }
  }

  // ---------------------------------------------------------------- visualize

  /** The emissivity plot, requested by -e once -r is known to be present. */
  function EmissivityCall<F>(a: Args<F>): (r: seq<Event<F>>)
    requires a.npzFile.Some? ==> a.resolution.Some?
    ensures |r| == (if a.npzFile.Some? then 1 else 0)
    ensures forall e :: e in r ==>
              e.VisualizeEmissivity? && a.npzFile == Some(e.emissivity) && a.resolution == Some(e.resolution)
  {
    if a.npzFile.Some? then [VisualizeEmissivity(a.npzFile.value, a.resolution.value)] else []
  }

  /** The requested length-vs-* plots, in the order the source issues them. */
  function PlotCalls<F>(a: Args<F>): (r: seq<Event<F>>)
    ensures |r| <= 3
    ensures forall e :: e in r ==> IsCall(e) && !e.Show? && Origin(e) == Some(Visualize)
  {
    (if a.lvw then [VisualizeLvW(a.tPoint)] else [])
      + (if a.lvh then [VisualizeLvH(a.tPoint)] else [])
      + (if a.lvt then [VisualizeLvT] else [])
  }

  /**
   * Each length-vs-* plot is issued exactly when its flag is given; width and
   * height are plotted at the -t time point, and width comes before height,
   * which comes before time.
   */
  lemma PlotCallsRequested<F>(a: Args<F>)
    ensures VisualizeLvW(a.tPoint) in PlotCalls(a) <==> a.lvw
    ensures VisualizeLvH(a.tPoint) in PlotCalls(a) <==> a.lvh
    ensures VisualizeLvT in PlotCalls(a) <==> a.lvt
    ensures |PlotCalls(a)| == (if a.lvw then 1 else 0) + (if a.lvh then 1 else 0) + (if a.lvt then 1 else 0)
    ensures a.lvw ==> PlotCalls(a)[0] == VisualizeLvW(a.tPoint)
    ensures a.lvt ==> PlotCalls(a)[|PlotCalls(a)| - 1] == VisualizeLvT
  {
  }

  /**
   * The second half of VisualizeOptions: the length-vs-* block and the final
   * show. Its guard compares the store_true flags lvt, lvh and lvw with None;
   * they are booleans and never None, so the block runs whatever flags are
   * given, and a missing -s is a usage error even when no plot is requested.
   */
  function PlotsOutcome<F>(a: Args<F>, isFile: Path -> bool): (r: Outcome<F>)
    ensures |r.events| > 0
    ensures r.ending == Completed ==> r.events[|r.events| - 1] == Show
    ensures r.ending == EarlyReturn ==> r.events == [Log(ERROR, SolutionFileMissing)]
  {
    if a.solFile.None? then Outcome([UsageExit(SolutionRequired)], Exited)
    else if !isFile(a.solFile.value) then Outcome([Log(ERROR, SolutionFileMissing)], EarlyReturn)
    else Outcome([LoadSolutionFile(a.solFile.value, a.outDir)] + PlotCalls(a) + [Show], Completed)
  }

  /**
   * The length-vs-* block ends in exactly one of three ways: a usage error as
   * its only event, an error record as its only event, or a show after the
   * load and the plots; its only record is that error.
   */
  lemma PlotsWellFormed<F>(a: Args<F>, isFile: Path -> bool)
    ensures var r := PlotsOutcome(a, isFile);
            && ExitIsFinal(r) && IssuedBy(r, Visualize)
            && (r.ending == Completed <==> Show in r.events)
            && (forall e :: e in r.events && e.Log? ==> e.level == ERROR)
  {
    var r := PlotsOutcome(a, isFile);
    if a.solFile.None? {
      var stop: Event<F> := UsageExit(SolutionRequired);
      ClosedBy([], stop, Exited);
      assert [] + [stop] == r.events;
    } else if !isFile(a.solFile.value) {
      var error: Event<F> := Log(ERROR, SolutionFileMissing);
      ClosedBy([], error, EarlyReturn);
      assert [] + [error] == r.events;
    } else {
      ShownAfterPlots(a, a.solFile.value);
    }
  }

  /** The load, the requested plots and the show: a well-formed normal return. */
  lemma ShownAfterPlots<F>(a: Args<F>, solution: Path)
    ensures var r := Outcome([LoadSolutionFile(solution, a.outDir)] + PlotCalls(a) + [Show], Completed);
            && ExitIsFinal(r) && IssuedBy(r, Visualize) && Show in r.events
            && (forall e :: e in r.events ==> !e.Log?)
  {
    var body := [LoadSolutionFile(solution, a.outDir)] + PlotCalls(a);
    ClosedBy(body, Show, Completed);
    var t := body + [Show];
    forall i | 0 <= i < |t|
      ensures Origin(t[i]) == Some(Visualize) && !t[i].Log?
    {
      if 0 < i < |t| - 1 {
        assert t[i] == PlotCalls(a)[i - 1];
      }
    }
    assert t[|t| - 1] == Show;
  }

  /** Calls placed before an outcome that satisfies ExitIsFinal keep it so. */
  lemma CallsBefore<F>(pre: seq<Event<F>>, o: Outcome<F>)
    requires forall e :: e in pre ==> IsCall(e) && !e.Show?
    requires ExitIsFinal(o)
    ensures ExitIsFinal(Outcome(pre + o.events, o.ending))
  {
    var t := pre + o.events;
    forall i | 0 <= i < |t| - 1
      ensures !t[i].UsageExit?
    {
      if i < |pre| {
        assert t[i] in pre;
      } else {
        assert t[i] == o.events[i - |pre|];
      }
    }
  }

  /**
   * VisualizeOptions: the emissivity plot, issued as soon as -e and -r are
   * known, then the length-vs-* block.
   */
  function VisualizeOutcome<F>(a: Args<F>, isFile: Path -> bool): (r: Outcome<F>)
    ensures |r.events| > 0
    ensures r.ending == Completed ==> r.events[|r.events| - 1] == Show
    ensures r.ending == EarlyReturn ==> r.events[|r.events| - 1] == Log(ERROR, SolutionFileMissing)
    ensures a.npzFile.Some? && a.resolution.Some? ==>
              r.events[0] == VisualizeEmissivity(a.npzFile.value, a.resolution.value)
  {
    if a.npzFile.Some? && a.resolution.None? then Outcome([UsageExit(ResolutionRequired)], Exited)
    else
      var plots := PlotsOutcome(a, isFile);
      Outcome(EmissivityCall(a) + plots.events, plots.ending)
  }

  /**
   * VisualizeOptions exits exactly when its last event is a usage error, shows
   * exactly when it returns normally, and logs nothing but errors.
   */
  lemma VisualizeWellFormed<F>(a: Args<F>, isFile: Path -> bool)
    ensures var r := VisualizeOutcome(a, isFile);
            && ExitIsFinal(r) && IssuedBy(r, Visualize)
            && (r.ending == Completed <==> Show in r.events)
            && (forall e :: e in r.events && e.Log? ==> e.level == ERROR)
  {
    if a.npzFile.Some? && a.resolution.None? {
      var stop: Event<F> := UsageExit(ResolutionRequired);
      ClosedBy([], stop, Exited);
      assert [] + [stop] == VisualizeOutcome(a, isFile).events;
    } else {
      PlotsWellFormed(a, isFile);
      CallsBefore(EmissivityCall(a), PlotsOutcome(a, isFile));
    }
  }

  /**
   * The emissivity plot of a given dataset and resolution is issued exactly
   * when -e names that dataset and -r that resolution.
   */
  lemma EmissivityRequested<F>(a: Args<F>, isFile: Path -> bool, p: Path, res: int)
    ensures (VisualizeEmissivity(p, res) in VisualizeOutcome(a, isFile).events
             <==> a.npzFile == Some(p) && a.resolution == Some(res))
  {
    if !(a.npzFile.Some? && a.resolution.None?) {
      var plots := PlotsOutcome(a, isFile).events;
      assert VisualizeEmissivity(p, res) !in plots by {
        if a.solFile.Some? && isFile(a.solFile.value) {
          assert plots == [LoadSolutionFile(a.solFile.value, a.outDir)] + PlotCalls(a) + [Show];
        }
      }
      assert VisualizeOutcome(a, isFile).events == EmissivityCall(a) + plots;
    }
  }

  /** -e without -r is a usage error before any call: no plot and no show. */
  lemma VisualizeResolutionGate<F>(a: Args<F>, isFile: Path -> bool)
    requires a.npzFile.Some? && a.resolution.None?
    ensures VisualizeOutcome(a, isFile).ending == Exited
    ensures Calls(VisualizeOutcome(a, isFile).events) == []
  {
  }

  /**
   * Without -s the block still runs and exits with a usage error, even when no
   * length-vs-* flag is given; an emissivity plot may already have been issued,
   * and it is never shown.
   */
  lemma VisualizeSolutionRequired<F>(a: Args<F>, isFile: Path -> bool)
    requires a.npzFile.Some? ==> a.resolution.Some?
    requires a.solFile.None?
    ensures VisualizeOutcome(a, isFile).ending == Exited
    ensures Calls(VisualizeOutcome(a, isFile).events) == EmissivityCall(a)
  {
    CallsAppend(EmissivityCall(a), [UsageExit(SolutionRequired)]);
    CallsOfCalls(EmissivityCall(a));
    CallsOfNone<F>([UsageExit(SolutionRequired)]);
    assert PlotsOutcome(a, isFile).events == [UsageExit(SolutionRequired)];
  }

  /** A solution path that is not a file: an error record, no load, no plot, no show. */
  lemma VisualizeMissingSolution<F>(a: Args<F>, isFile: Path -> bool)
    requires a.npzFile.Some? ==> a.resolution.Some?
    requires a.solFile.Some? && !isFile(a.solFile.value)
    ensures VisualizeOutcome(a, isFile).ending == EarlyReturn
    ensures Calls(VisualizeOutcome(a, isFile).events) == EmissivityCall(a)
  {
    CallsAppend(EmissivityCall(a), [Log(ERROR, SolutionFileMissing)]);
    CallsOfCalls(EmissivityCall(a));
    CallsOfNone<F>([Log(ERROR, SolutionFileMissing)]);
    assert PlotsOutcome(a, isFile).events == [Log(ERROR, SolutionFileMissing)];
  }

  /**
   * With an existing solution file: the emissivity plot if requested, then the
   * load, then the width, height and time plots that were asked for, then show.
   */
  lemma VisualizePlotOrder<F>(a: Args<F>, isFile: Path -> bool)
    requires a.npzFile.Some? ==> a.resolution.Some?
    requires a.solFile.Some? && isFile(a.solFile.value)
    ensures VisualizeOutcome(a, isFile).ending == Completed
    ensures Calls(VisualizeOutcome(a, isFile).events)
              == EmissivityCall(a) + ([LoadSolutionFile(a.solFile.value, a.outDir)] + PlotCalls(a) + [Show])
  {
    var load := [LoadSolutionFile(a.solFile.value, a.outDir)];
    var plots := load + PlotCalls(a) + [Show];
    assert PlotsOutcome(a, isFile).events == plots;
    CallsOfCalls(load);
    CallsOfCalls(PlotCalls(a));
    CallsOfCalls<F>([Show]);
    CallsOfCalls(EmissivityCall(a));
    CallsAppend(load, PlotCalls(a));
    CallsAppend(load + PlotCalls(a), [Show]);
    CallsAppend(EmissivityCall(a), plots);
  }

  // ---------------------------------------------------------------- run

  /** ThermalAnalyzer.run: parse, then hand the record to the handler of its mode. */
  function RunOutcome<F>(cmd: Args<F>, isFile: Path -> bool): (r: Outcome<F>)
    ensures ExitIsFinal(r)
    ensures !GrammarAccepts(cmd) ==> r == Outcome([UsageExit(Rejected)], Exited)
    ensures GrammarAccepts(cmd) ==> IssuedBy(r, cmd.mode.value)
  {
    if !GrammarAccepts(cmd) then Outcome([UsageExit(Rejected)], Exited)
    else
      match cmd.mode.value
      case PreprocessGDS => PreprocessOutcome(cmd)
      case Simulate => SimulateOutcome(cmd)
      case Visualize => VisualizeWellFormed(cmd, isFile); VisualizeOutcome(cmd, isFile)
  }

  /** Modes never compose: no event of another mode's handler ever appears. */
  lemma ModesNeverCompose<F>(cmd: Args<F>, isFile: Path -> bool, other: Mode)
    requires cmd.mode != Some(other)
    ensures forall e :: e in RunOutcome(cmd, isFile).events ==> Origin(e) != Some(other)
  {
  }

  /**
   * Which records of a run the console shows: the error and critical records
   * always, whatever the flags; the debug lines of simulate only under -d.
   */
  lemma ConsoleShowsRecord<F>(cmd: Args<F>, isFile: Path -> bool, e: Event<F>)
    requires e in RunOutcome(cmd, isFile).events && e.Log?
    ensures var s := ResolveSeverity(cmd.verbose, cmd.quiet, cmd.debug);
            (e in Received(RunOutcome(cmd, isFile).events, ConsoleLevel(s), ConsoleLevel(s))
             <==> ERROR <= e.level || (cmd.debug && !cmd.verbose && !cmd.quiet))
  {
    var s := ResolveSeverity(cmd.verbose, cmd.quiet, cmd.debug);
    VisualizeWellFormed(cmd, isFile);
    ReceivedMembers(RunOutcome(cmd, isFile).events, ConsoleLevel(s), ConsoleLevel(s), e);
    assert e.level == DEBUG || e.level == ERROR || e.level == CRITICAL;
    assert e.level == DEBUG <==> cmd.mode == Some(Simulate) by {
      if e.level == DEBUG {
        assert Origin(e) == Some(Simulate) || Origin(e) == None;
      }
    }
  }
}
