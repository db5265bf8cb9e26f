/**
 * The observable behaviour of one invocation: an ordered trace of calls into
 * the collaborators (PreprocessGDS, ThermalSolver, Visualizer, pyplot),
 * records passed to the logger, and usage errors raised by the parser.
 */
module Events {
  import opened Common
  import opened Levels
  import opened Grammar

  /** The messages the front end logs. */
  datatype Message<F> =
    | JsonNotImplemented
    | UndefinedPreprocessState
    | SolutionFileMissing
    | TMaxIs(tMax: F)
    | TStepIs(tStep: F)
    | PwLampIs(pwLamp: F)

  /** Why a parser stopped the process with a usage message. */
  datatype UsageReason =
    | Rejected            // parse_args refused the command line
    | ResolutionRequired  // --emissivity without --resolution
    | SolutionRequired    // the length-vs-* block without --solution

  datatype Event<F> =
    | CreateNpzFromGds(gds: Path, gdsOutDir: Option<Path>)
    | Build(npz: Path, buildResolution: Option<int>, buildOutDir: Option<Path>)
    | BuildTest(test: int, testResolution: Option<int>, testOutDir: Option<Path>)
    | RunSolver(tMax: F, tStep: F, pwLamp: F)
    | VisualizeEmissivity(emissivity: Path, resolution: int)
    | LoadSolutionFile(solution: Path, solutionOutDir: Option<Path>)
    | VisualizeLvW(widthPoint: Option<F>)
    | VisualizeLvH(heightPoint: Option<F>)
    | VisualizeLvT
    | Show
    | Log(level: int, message: Message<F>)
    | UsageExit(reason: UsageReason)

  /** A call into a collaborator, as opposed to a log record or a usage error. */
  predicate IsCall<F>(e: Event<F>)
  {
    !e.Log? && !e.UsageExit?
  }

  /** The mode handler that issues an event; None for the top-level parser. */
  function Origin<F>(e: Event<F>): Option<Mode>
  {
    match e
    case CreateNpzFromGds(_, _) => Some(PreprocessGDS)
    case Build(_, _, _) => Some(Simulate)
    case BuildTest(_, _, _) => Some(Simulate)
    case RunSolver(_, _, _) => Some(Simulate)
    case VisualizeEmissivity(_, _) => Some(Visualize)
    case LoadSolutionFile(_, _) => Some(Visualize)
    case VisualizeLvW(_) => Some(Visualize)
    case VisualizeLvH(_) => Some(Visualize)
    case VisualizeLvT => Some(Visualize)
    case Show => Some(Visualize)
    case Log(_, m) =>
      (match m
       case JsonNotImplemented => Some(PreprocessGDS)
       case UndefinedPreprocessState => Some(PreprocessGDS)
       case SolutionFileMissing => Some(Visualize)
       case TMaxIs(_) => Some(Simulate)
       case TStepIs(_) => Some(Simulate)
       case PwLampIs(_) => Some(Simulate))
    case UsageExit(reason) => if reason == Rejected then None else Some(Visualize)
  }

  /**
   * The collaborator calls of a trace, in order.
   */
  function Calls<F>(t: seq<Event<F>>): (r: seq<Event<F>>)
    ensures |r| <= |t|
    ensures forall i :: 0 <= i < |r| ==> IsCall(r[i])
  {
    if t == [] then []
    else if IsCall(t[0]) then [t[0]] + Calls(t[1..])
    else Calls(t[1..])
  }

  /** The call view keeps exactly the calls of the trace. */
  lemma {:induction false} CallsMembers<F>(t: seq<Event<F>>, e: Event<F>)
    ensures e in Calls(t) <==> e in t && IsCall(e)
  {
    if t != [] {
      CallsMembers(t[1..], e);
      assert t == [t[0]] + t[1..];
    }
  }

  lemma {:induction false} CallsAppend<F>(a: seq<Event<F>>, b: seq<Event<F>>)
    ensures Calls(a + b) == Calls(a) + Calls(b)
  {
    if a != [] {
      assert (a + b)[1..] == a[1..] + b;
      CallsAppend(a[1..], b);
    } else {
      assert a + b == b;
    }
  }

  /** A trace of calls only is its own call view. */
  lemma {:induction false} CallsOfCalls<F>(t: seq<Event<F>>)
    requires forall e :: e in t ==> IsCall(e)
    ensures Calls(t) == t
  {
    if t != [] {
      assert forall e :: e in t[1..] ==> e in t;
      CallsOfCalls(t[1..]);
    }
  }

  /** A trace without calls has an empty call view. */
  lemma {:induction false} CallsOfNone<F>(t: seq<Event<F>>)
    requires forall e :: e in t ==> !IsCall(e)
    ensures Calls(t) == []
  {
    if t != [] {
      assert forall e :: e in t[1..] ==> e in t;
      CallsOfNone(t[1..]);
    }
  }

  /**
   * The log records a handler of the given level emits, in order, when the
   * logger has the given level.
   */
  function Received<F>(t: seq<Event<F>>, loggerLevel: int, handlerLevel: int): (r: seq<Event<F>>)
    ensures |r| <= |t|
    ensures forall i :: 0 <= i < |r| ==> r[i].Log? && Passes(loggerLevel, handlerLevel, r[i].level)
  {
    if t == [] then []
    else
      var rest := Received(t[1..], loggerLevel, handlerLevel);
      if t[0].Log? && Passes(loggerLevel, handlerLevel, t[0].level) then [t[0]] + rest else rest
  }

  /** A handler emits exactly the records of the trace that clear both levels. */
  lemma {:induction false} ReceivedMembers<F>(t: seq<Event<F>>, loggerLevel: int, handlerLevel: int, e: Event<F>)
    ensures (e in Received(t, loggerLevel, handlerLevel)
             <==> e in t && e.Log? && Passes(loggerLevel, handlerLevel, e.level))
  {
    if t != [] {
      ReceivedMembers(t[1..], loggerLevel, handlerLevel, e);
      assert t == [t[0]] + t[1..];
    }
  }

  lemma {:induction false} ReceivedAppend<F>(a: seq<Event<F>>, b: seq<Event<F>>, loggerLevel: int, handlerLevel: int)
    ensures Received(a + b, loggerLevel, handlerLevel)
         == Received(a, loggerLevel, handlerLevel) + Received(b, loggerLevel, handlerLevel)
  {
    if a != [] {
      assert (a + b)[1..] == a[1..] + b;
      ReceivedAppend(a[1..], b, loggerLevel, handlerLevel);
    } else {
      assert a + b == b;
    }
  }

  /** A handler emits every record of a trace whose records all clear both levels. */
  lemma {:induction false} ReceivedAll<F>(t: seq<Event<F>>, loggerLevel: int, handlerLevel: int)
    requires forall e :: e in t ==> e.Log? && Passes(loggerLevel, handlerLevel, e.level)
    ensures Received(t, loggerLevel, handlerLevel) == t
  {
    if t != [] {
      assert forall e :: e in t[1..] ==> e in t;
      ReceivedAll(t[1..], loggerLevel, handlerLevel);
    }
  }

  /** A handler emits nothing of a trace none of whose records clears both levels. */
  lemma {:induction false} ReceivedNone<F>(t: seq<Event<F>>, loggerLevel: int, handlerLevel: int)
    requires forall e :: e in t ==> !(e.Log? && Passes(loggerLevel, handlerLevel, e.level))
    ensures Received(t, loggerLevel, handlerLevel) == []
  {
    if t != [] {
      assert forall e :: e in t[1..] ==> e in t;
      ReceivedNone(t[1..], loggerLevel, handlerLevel);
    }
  }

  /**
   * Two handlers whose levels do not exceed the logger's level emit the same
   * records: only the logger's level decides.
   */
  lemma {:induction false} ReceivedBelowLoggerLevel<F>(t: seq<Event<F>>, loggerLevel: int, h1: int, h2: int)
    requires h1 <= loggerLevel && h2 <= loggerLevel
    ensures Received(t, loggerLevel, h1) == Received(t, loggerLevel, h2)
  {
    if t != [] {
      ReceivedBelowLoggerLevel(t[1..], loggerLevel, h1, h2);
    }
  }
}
