/**
 * Concrete command lines and what one invocation does with them; the float
 * arguments are instantiated with reals.
 */
module Scenarios {
  import opened Common
  import opened Levels
  import opened Grammar
  import opened Events
  import opened Dispatch

  /** A record with no option given, to be updated field by field. */
  function Blank(mode: Mode): (a: Args<real>)
    ensures a.mode == Some(mode)
  {
    Args(false, false, false, None, Some(mode), None, None, None, None, None, None,
         None, None, None, None, false, false, false, None)
  }

  /** `simulate -g data.npz -r 5 -tm 10.0 -ts 0.1 -tp 0.5`: build, then run the solver. */
  lemma SimulateFromDataset(isFile: Path -> bool)
    ensures var cmd := Blank(Simulate).(npzFile := Some("data.npz"), resolution := Some(5),
                                        tMax := Some(10.0), tStep := Some(0.1), pwLamp := Some(0.5));
            && RunOutcome(cmd, isFile).ending == Completed
            && Calls(RunOutcome(cmd, isFile).events)
                 == [Build("data.npz", Some(5), None), RunSolver(10.0, 0.1, 0.5)]
  {
    var cmd := Blank(Simulate).(npzFile := Some("data.npz"), resolution := Some(5),
                                tMax := Some(10.0), tStep := Some(0.1), pwLamp := Some(0.5));
    SimulateCalls(cmd);
  }

  /** `simulate -t 2 -r 10 -tm 5 -ts 0.5 -tp 1.0`: build test case 2, then run the solver. */
  lemma SimulateTestCase(isFile: Path -> bool)
    ensures var cmd := Blank(Simulate).(test := Some(2), resolution := Some(10),
                                        tMax := Some(5.0), tStep := Some(0.5), pwLamp := Some(1.0));
            && RunOutcome(cmd, isFile).ending == Completed
            && Calls(RunOutcome(cmd, isFile).events)
                 == [BuildTest(2, Some(10), None), RunSolver(5.0, 0.5, 1.0)]
  {
    var cmd := Blank(Simulate).(test := Some(2), resolution := Some(10),
                                tMax := Some(5.0), tStep := Some(0.5), pwLamp := Some(1.0));
    SimulateCalls(cmd);
  }

  /** `simulate -t 4 ...` is refused by the choices of -t: nothing is called. */
  lemma SimulateUnknownTestCase(isFile: Path -> bool)
    ensures var cmd := Blank(Simulate).(test := Some(4), resolution := Some(10),
                                        tMax := Some(5.0), tStep := Some(0.5), pwLamp := Some(1.0));
            RunOutcome(cmd, isFile) == Outcome([UsageExit(Rejected)], Exited)
  {
  }

  /** `visualize -e em.npz` without -r: a usage error and no call at all. */
  lemma EmissivityWithoutResolution(isFile: Path -> bool)
    ensures var cmd := Blank(Visualize).(npzFile := Some("em.npz"));
            RunOutcome(cmd, isFile) == Outcome([UsageExit(ResolutionRequired)], Exited)
  {
  }

  /**
   * `visualize -e em.npz -r 5` alone: the emissivity plot is issued, then the
   * length-vs-* block demands -s and the process exits before show.
   */
  lemma EmissivityAloneExits(isFile: Path -> bool)
    ensures var cmd := Blank(Visualize).(npzFile := Some("em.npz"), resolution := Some(5));
            RunOutcome(cmd, isFile)
              == Outcome([VisualizeEmissivity("em.npz", 5), UsageExit(SolutionRequired)], Exited)
  {
  }

  /** `visualize -lvt -s missing.sol` with no such file: an error record and an early return. */
  lemma MissingSolutionFile(isFile: Path -> bool)
    requires !isFile("missing.sol")
    ensures var cmd := Blank(Visualize).(lvt := true, solFile := Some("missing.sol"));
            RunOutcome(cmd, isFile) == Outcome([Log(ERROR, SolutionFileMissing)], EarlyReturn)
  {
  }

  /** `visualize -lvw -lvt -t 1.5 -s run.sol` with the file present: load, plot, plot, show. */
  lemma SolutionPlots(isFile: Path -> bool)
    requires isFile("run.sol")
    ensures var cmd := Blank(Visualize).(lvw := true, lvt := true, tPoint := Some(1.5),
                                         solFile := Some("run.sol"));
            RunOutcome(cmd, isFile)
              == Outcome([LoadSolutionFile("run.sol", None), VisualizeLvW(Some(1.5)), VisualizeLvT, Show],
                         Completed)
  {
  }

  /** `preprocessGDS -j file.json -o out/`: a critical "not implemented" record and nothing else. */
  lemma PreprocessJson(isFile: Path -> bool)
    ensures var cmd := Blank(PreprocessGDS).(jsonFile := Some("file.json"), outDir := Some("out/"));
            RunOutcome(cmd, isFile) == Outcome([Log(CRITICAL, JsonNotImplemented)], Completed)
  {
  }

  /** `-v -q preprocessGDS -g chip.gds -o out/`: two verbosity flags, refused before any call. */
  lemma TwoVerbosityFlags(isFile: Path -> bool)
    ensures var cmd := Blank(PreprocessGDS).(verbose := true, quiet := true,
                                             gdsFile := Some("chip.gds"), outDir := Some("out/"));
            RunOutcome(cmd, isFile) == Outcome([UsageExit(Rejected)], Exited)
  {
  }
}
