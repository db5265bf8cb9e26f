# ThermalAnalyzer command-line front end

A Dafny model of `ThermalAnalyzer`, the command-line front end of a rapid
thermal annealing toolkit. The modelled core is `src/ThermalAnalyzer.py`:

- the argparse grammar of `parseInputArguments`: three verbosity flags in one
  mutually exclusive group, an optional log file, and the subcommands
  `preprocessGDS`, `simulate` and `visualize` with their required and
  mutually exclusive options;
- the severity chosen from `-v`, `-q` and `-d`;
- `create_logger`: the `TAZ` logger, its console handler and an optional
  file handler, with their levels and the custom `STATUS` level (25);
- `run` and the three mode handlers `PreprocessGdsOptions` (with
  `modeJsonPreprocess` and `modeGdsPreprocess`), `SimulateOptions` and
  `VisualizeOptions`.

The model observes one invocation as an ordered trace of events:

- calls into the collaborators (`PreprocessGDS`, `ThermalSolver`, `Visualizer`,
  and pyplot's `show`);
- records handed to the logger, each with its numeric level;
- usage errors raised by a parser. A usage error ends the process.

Modules:

- `Levels` holds the numeric levels and how a severity is chosen.
- `Grammar` holds the parsed record `Args`. `GrammarAccepts` is the predicate
  for the command lines that `parse_args` accepts.
- `Events` holds the trace vocabulary. `Received` gives the records that a
  handler emits.
- `Logging` holds the handlers and the `Logger` class.
- `Dispatch` holds one pure function per handler. Each returns the events it
  produces and how it ends: normally, by an early return, or by an exit.
- `Analyzer` holds the class `ThermalAnalyzer`. Its `args`, `logger` and
  `trace` fields change as its methods run. Each mode handler, `PlotSolution`
  and `Run` is proved to append exactly the events of its `Dispatch` function.
  `ParseInputArguments` and `CreateLogger` are proved against
  `GrammarAccepts`, `ResolveSeverity` and `Handlers`.
- `Scenarios` walks concrete command lines through `RunOutcome`.

Float arguments are a type parameter, because the front end only passes them
on. `Path.is_file` is an oracle parameter `isFile`.

The model follows the code as written, including three behaviours a reader may
not expect:

- `visualize` issues the emissivity plot before it checks `-s`.
- The length-vs-* guard compares `store_true` flags with `None`, so it always
  holds. A `visualize` run without `-s` therefore ends in a usage error even
  when no length-vs-* plot was requested.
- The solver runs even when neither a dataset nor a test case is given. Only
  the grammar excludes that state.

## Model

| member | source | states |
|---|---|---|
| Levels.LevelOf | src/ThermalAnalyzer.py:217-222 | the levels selected by -v, -q and -d lie between DEBUG and WARNING and are never STATUS |
| Levels.ResolveSeverity | src/ThermalAnalyzer.py:217-225 | -v always yields INFO; there is no severity exactly when no flag is given; once at most one flag is set, each flag yields exactly its own severity |
| Levels.ConsoleLevel | src/ThermalAnalyzer.py:93-98 | with no severity, the logger and console sit at STATUS, strictly between INFO and WARNING; otherwise they sit at the chosen level |
| Levels.FileLevel | src/ThermalAnalyzer.py:108-111 | the file handler sits at INFO with no severity and at the console's level otherwise; it is never above the console |
| Levels.ConsoleSeverityOrdering | src/ThermalAnalyzer.py:93-98 | the console accepts DEBUG and above under -d, INFO and above under -v, WARNING and above under -q (rejecting STATUS and INFO), and STATUS and above with no flag |
| Levels.FileEffectiveThreshold | src/ThermalAnalyzer.py:93-111 | with no flag the file handler is set to INFO, yet behind the STATUS logger it receives only STATUS and above; with any flag it accepts the same levels as the console |
| Grammar.GrammarAccepts | src/ThermalAnalyzer.py:121-212 | a command line parses iff at most one of -v/-q/-d is given, a subcommand is named, and the subcommand's own declarations hold; an accepted preprocessGDS has -j or -g, and an accepted simulate has -g or -t and all three float options |
| Grammar.PreprocessAccepts | src/ThermalAnalyzer.py:204-212 | the preprocessGDS declarations: exactly one of -j/-g, a required -o, no other subcommand's options; an accepted one always has -j or -g |
| Grammar.SimulateAccepts | src/ThermalAnalyzer.py:147-165 | the simulate declarations: exactly one of -g/-t, -t among the choices 1, 2, 3, required -r, -tm, -ts, -tp; an accepted one has -g or -t, and -t is a valid test case |
| Grammar.VisualizeOptionsOptional | src/ThermalAnalyzer.py:168-196 | no visualize option is required: whether a visualize command line parses does not depend on -e, -r, -o, -t, -lvw, -lvt, -lvh or -s |
| Grammar.AcceptedShape | src/ThermalAnalyzer.py:121-212 | an accepted command line names a mode; preprocessGDS has exactly one of -j/-g plus -o; simulate has exactly one of -g/-t, -t in {1,2,3}, and -r, -tm, -ts, -tp; only visualize carries the plot flags and -s |
| Grammar.VerbosityFlagsExclusive | src/ThermalAnalyzer.py:121-130 | any two of -v, -q, -d make the command line rejected |
| Logging.Handlers | src/ThermalAnalyzer.py:92-114 | exactly one handler without a log file and two with one; the console handler comes first at the console level; a file handler exists iff a log file is given, and it is second, at the file level |
| Logging.Logger.constructor | src/ThermalAnalyzer.py:90 | a new logger starts at NOTSET with no handlers |
| Logging.Logger.SetLevel | src/ThermalAnalyzer.py:94-97 | sets the logger's level and leaves its handlers alone |
| Logging.Logger.AddHandler | src/ThermalAnalyzer.py:104 | appends one handler and leaves the level alone |
| Logging.FileMirrorsConsole | src/ThermalAnalyzer.py:93-114 | for every trace and every flag choice, the log file receives exactly the records the console receives |
| Logging.DefaultLoggerThresholds | src/ThermalAnalyzer.py:93-109 | with no flag, every handler emits a record iff its level is STATUS or above; INFO and DEBUG reach no sink |
| Dispatch.PreprocessOutcome | src/ThermalAnalyzer.py:28-34 | one event, ending normally; it is a call iff there is no JSON input and there is a GDS input, and then it is createNpzFromGDS(gds, outDir); otherwise it is a CRITICAL record |
| Dispatch.PreprocessBranches | src/ThermalAnalyzer.py:28-34 | for an accepted command line, -j gives only the "not implemented" record, -g gives only the GDS call, and the undefined-state record never occurs |
| Dispatch.PreprocessUndefinedState | src/ThermalAnalyzer.py:33-34 | without -j and -g, the handler logs the undefined-state record and calls nothing |
| Dispatch.ParameterLines | src/ThermalAnalyzer.py:64-66 | three records, all at DEBUG |
| Dispatch.BuilderCall | src/ThermalAnalyzer.py:67-70 | at most one call, and it is build or buildTest |
| Dispatch.SimulateOutcome | src/ThermalAnalyzer.py:63-71 | simulate ends normally; runSolver(t_max, t_step, pw_lamp) is its last event and occurs nowhere earlier; all its records are at DEBUG |
| Dispatch.SimulateCalls | src/ThermalAnalyzer.py:67-71 | the calls are build(npz, R, outDir) if a dataset is given, else buildTest(test, R, outDir) if a test case is given, then runSolver in every case |
| Dispatch.SimulateBuildsOnce | src/ThermalAnalyzer.py:63-71 | from an accepted command line, exactly two calls: build iff -g, buildTest iff -t, then the solver |
| Dispatch.SimulateConsole | src/ThermalAnalyzer.py:64-66 | the console shows the three parameter lines under -d, and shows nothing of simulate under any other flag choice |
| Dispatch.EmissivityCall | src/ThermalAnalyzer.py:37-41 | one event iff -e is given and none otherwise; that event is the emissivity plot of the -e dataset at the -r resolution |
| Dispatch.PlotCalls | src/ThermalAnalyzer.py:54-59 | at most three visualize calls, none of which is show |
| Dispatch.PlotCallsRequested | src/ThermalAnalyzer.py:54-59 | each length-vs-* plot is issued iff its flag is set; width and height use the -t time point; the count equals the number of flags; width is first and time is last |
| Dispatch.PlotsOutcome | src/ThermalAnalyzer.py:42-60 | the block is never empty; a normal end closes with show; an early return is exactly the missing-file ERROR record |
| Dispatch.PlotsWellFormed | src/ThermalAnalyzer.py:42-60 | the block exits iff its last event is a usage error, has no earlier usage error, shows iff it ends normally, issues only visualize events, and logs only ERROR records |
| Dispatch.VisualizeOutcome | src/ThermalAnalyzer.py:36-60 | visualize is never empty; a normal end closes with show; an early return closes with the missing-file record; with -e and -r, the emissivity plot comes first |
| Dispatch.VisualizeWellFormed | src/ThermalAnalyzer.py:36-60 | visualize exits iff its last event is a usage error, shows iff it ends normally, issues only visualize events, and logs only ERROR records |
| Dispatch.EmissivityRequested | src/ThermalAnalyzer.py:37-41 | visualize issues the emissivity plot of a dataset at a resolution iff -e names that dataset and -r that resolution; without -e it issues no emissivity plot |
| Dispatch.VisualizeResolutionGate | src/ThermalAnalyzer.py:37-40 | -e without -r exits before any call |
| Dispatch.VisualizeSolutionRequired | src/ThermalAnalyzer.py:42-48 | without -s, visualize exits after at most the emissivity plot, even with no length-vs-* flag |
| Dispatch.VisualizeMissingSolution | src/ThermalAnalyzer.py:49-52 | a -s that is not a file returns early with no load, plot or show beyond the emissivity plot |
| Dispatch.VisualizePlotOrder | src/ThermalAnalyzer.py:53-60 | with an existing solution file, the calls are: the emissivity plot if requested, the load, the requested width, height and time plots, then show |
| Dispatch.RunOutcome | src/ThermalAnalyzer.py:17-25 | a usage error is always final; a rejected command line yields only the usage exit; an accepted one yields only events of the chosen mode's handler |
| Dispatch.ModesNeverCompose | src/ThermalAnalyzer.py:17-25 | no event of another mode's handler ever appears in a run |
| Dispatch.ConsoleShowsRecord | src/ThermalAnalyzer.py:216-227 | the console shows a record of a run iff the record is ERROR or above, or -d was the only verbosity flag |
| Analyzer.ThermalAnalyzer.constructor | src/ThermalAnalyzer.py:12-15 | a new analyzer has no arguments, no logger and an empty trace |
| Analyzer.ThermalAnalyzer.CreateLogger | src/ThermalAnalyzer.py:87-115 | returns a fresh logger at the console level whose handlers are exactly Handlers(log file, severity) |
| Analyzer.ThermalAnalyzer.ParseInputArguments | src/ThermalAnalyzer.py:117-228 | accepts iff GrammarAccepts; a rejection appends the usage exit and changes nothing else; an acceptance stores the record and a fresh logger built from the resolved severity |
| Analyzer.ThermalAnalyzer.ModeJsonPreprocess | src/ThermalAnalyzer.py:73-77 | appends the CRITICAL "not implemented" record |
| Analyzer.ThermalAnalyzer.ModeGdsPreprocess | src/ThermalAnalyzer.py:80-83 | appends createNpzFromGDS(gdsFile, outDir) |
| Analyzer.ThermalAnalyzer.PreprocessGdsOptions | src/ThermalAnalyzer.py:28-34 | appends exactly the events of PreprocessOutcome |
| Analyzer.ThermalAnalyzer.SimulateOptions | src/ThermalAnalyzer.py:63-71 | appends exactly the events of SimulateOutcome |
| Analyzer.ThermalAnalyzer.VisualizeOptions | src/ThermalAnalyzer.py:36-60 | appends exactly the events of VisualizeOutcome and ends as it says |
| Analyzer.ThermalAnalyzer.PlotSolution | src/ThermalAnalyzer.py:42-60 | appends exactly the events of PlotsOutcome and ends as it says |
| Analyzer.ThermalAnalyzer.Run | src/ThermalAnalyzer.py:17-25 | appends exactly the events of RunOutcome and ends as it says; a rejected command line leaves the record and the logger alone; an accepted one leaves the record stored and a fresh logger at the resolved console level with Handlers(log file, severity) |
| Scenarios.SimulateFromDataset | src/ThermalAnalyzer.py:63-71 | `simulate -g data.npz -r 5 -tm 10.0 -ts 0.1 -tp 0.5` calls build, then the solver |
| Scenarios.SimulateTestCase | src/ThermalAnalyzer.py:63-71 | `simulate -t 2 ...` calls buildTest(2, ...), then the solver |
| Scenarios.SimulateUnknownTestCase | src/ThermalAnalyzer.py:151-153 | `simulate -t 4 ...` is rejected with no call |
| Scenarios.EmissivityWithoutResolution | src/ThermalAnalyzer.py:37-40 | `visualize -e em.npz` exits with a usage error and no call |
| Scenarios.EmissivityAloneExits | src/ThermalAnalyzer.py:37-48 | `visualize -e em.npz -r 5` plots emissivity, then exits demanding -s, and never shows |
| Scenarios.MissingSolutionFile | src/ThermalAnalyzer.py:49-52 | `visualize -lvt -s missing.sol` logs one ERROR record and returns early |
| Scenarios.SolutionPlots | src/ThermalAnalyzer.py:53-60 | `visualize -lvw -lvt -t 1.5 -s run.sol` loads, plots width, plots time, shows |
| Scenarios.PreprocessJson | src/ThermalAnalyzer.py:28-30 | `preprocessGDS -j file.json -o out/` logs the CRITICAL "not implemented" record only |
| Scenarios.TwoVerbosityFlags | src/ThermalAnalyzer.py:121-126 | `-v -q preprocessGDS ...` is rejected before any call |

## Left out

- argparse help and usage text, `prog` and descriptions, `--help`, and string-to-Path/int/float conversion. A command line is modelled as the parsed record, and `GrammarAccepts` says which records parse.
- The exit status and the usage message of `parser.error`. The model keeps a usage-exit event with its reason.
- The parser objects stored in `self.parser`, `self.parserVisualize` and `self.parserGdsPreprocess`, because they are used only to raise usage errors.
- `set_defaults(func=...)`, because nothing in the core ever calls `func`.
- Formatters, timestamps, level names, and the `%e` formatting of the debug lines. A record carries its level and the value it reports.
- The `FileHandler` opening the file and `absolute()`. A handler is a value made of a sink and a level, not an object.
- `logging.getLogger`'s registry and propagation to the root logger.
- Logging.Logger.constructor: always starts from an empty logger. A second `create_logger` call in one process would find the registered `TAZ` logger and add handlers to it; `run` calls it only once.
- The internals of `PreprocessGDS`, `ThermalSolver`, `Visualizer` and pyplot, and their construction in `__init__`. They are not part of this model; calls into them are trace events.
- `Path.is_file` and the filesystem. They are the parameter `isFile`.
- The `__main__` block, which only constructs the analyzer and calls `run`.
