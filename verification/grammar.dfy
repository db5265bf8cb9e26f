/**
 * The argparse declarations of ThermalAnalyzer.parseInputArguments as a
 * validity predicate over the parsed record.
 */
module Grammar {
  import opened Common
  import opened Levels

  /** The subcommand stored under dest 'AnalysisMode'. */
  datatype Mode = PreprocessGDS | Simulate | Visualize

  /**
   * What a command line supplies, one field per argparse dest. An option that
   * was not given is None (a store_true flag is false). `npzFile` is shared by
   * `simulate -g` and `visualize -e`, `resolution` (dest R) by both `-r`, and
   * `outDir` by every subcommand. `F` stands for the float arguments, which the
   * front end only passes on.
   */
  datatype Args<F> = Args(
    verbose: bool, quiet: bool, debug: bool,
    log: Option<Path>,
    mode: Option<Mode>,
    jsonFile: Option<Path>, gdsFile: Option<Path>,
    outDir: Option<Path>,
    npzFile: Option<Path>, test: Option<int>, resolution: Option<int>,
    tMax: Option<F>, tStep: Option<F>, pwLamp: Option<F>,
    tPoint: Option<F>, lvw: bool, lvt: bool, lvh: bool,
    solFile: Option<Path>)

  /** A mutually exclusive group declared with required=True. */
  predicate ExactlyOne(a: bool, b: bool)
  {
    a != b
  }

  /** The choices of `simulate -t`. */
  predicate IsTestCase(n: int)
  {
    n == 1 || n == 2 || n == 3
  }

  /** `preprocessGDS`: one of -j/-g, a required -o, nothing of the other subcommands. */
  predicate PreprocessAccepts<F>(a: Args<F>): (ok: bool)
    ensures ok ==> a.jsonFile.Some? || a.gdsFile.Some?
  {
    && ExactlyOne(a.jsonFile.Some?, a.gdsFile.Some?)
    && a.outDir.Some?
    && a.npzFile.None? && a.test.None? && a.resolution.None?
    && a.tMax.None? && a.tStep.None? && a.pwLamp.None?
    && a.tPoint.None? && !a.lvw && !a.lvt && !a.lvh && a.solFile.None?
  }

  /** `simulate`: one of -g/-t with -t in {1,2,3}; -r, -tm, -ts, -tp required; -o optional. */
  predicate SimulateAccepts<F>(a: Args<F>): (ok: bool)
    ensures ok ==> a.npzFile.Some? || a.test.Some?
    ensures ok ==> a.test.None? || a.test.value in {1, 2, 3}
  {
    && ExactlyOne(a.npzFile.Some?, a.test.Some?)
    && (a.test.Some? ==> IsTestCase(a.test.value))
    && a.resolution.Some? && a.tMax.Some? && a.tStep.Some? && a.pwLamp.Some?
    && a.jsonFile.None? && a.gdsFile.None?
    && a.tPoint.None? && !a.lvw && !a.lvt && !a.lvh && a.solFile.None?
  }

  /** `visualize`: every option is optional; the options of the other subcommands are absent. */
  predicate VisualizeAccepts<F>(a: Args<F>)
  {
    && a.jsonFile.None? && a.gdsFile.None?
    && a.test.None? && a.tMax.None? && a.tStep.None? && a.pwLamp.None?
  }

  /** parse_args succeeds exactly on the records this predicate admits. */
  predicate GrammarAccepts<F>(a: Args<F>): (ok: bool)
    ensures ok ==> a.mode.Some? && !(a.verbose && a.quiet) && !(a.verbose && a.debug) && !(a.quiet && a.debug)
    ensures ok && a.mode == Some(PreprocessGDS) ==> a.jsonFile.Some? || a.gdsFile.Some?
    ensures ok && a.mode == Some(Simulate) ==>
              (a.npzFile.Some? || a.test.Some?) && a.tMax.Some? && a.tStep.Some? && a.pwLamp.Some?
  {
    && AtMostOne(a.verbose, a.quiet, a.debug)
    && a.mode.Some?
    && match a.mode.value
       case PreprocessGDS => PreprocessAccepts(a)
       case Simulate => SimulateAccepts(a)
       case Visualize => VisualizeAccepts(a)
  }

  /** The invariants every accepted record satisfies. */
  lemma AcceptedShape<F>(a: Args<F>)
    requires GrammarAccepts(a)
    ensures a.mode.Some?
    ensures ResolveSeverity(a.verbose, a.quiet, a.debug).Some? ==>
              (a.verbose || a.quiet || a.debug)
    ensures a.mode == Some(PreprocessGDS) ==>
              (a.jsonFile.Some? != a.gdsFile.Some?) && a.outDir.Some?
    ensures a.mode == Some(Simulate) ==>
              && (a.npzFile.Some? != a.test.Some?)
              && (a.test.Some? ==> a.test.value in {1, 2, 3})
              && a.resolution.Some? && a.tMax.Some? && a.tStep.Some? && a.pwLamp.Some?
    ensures a.mode != Some(Visualize) ==> !a.lvw && !a.lvt && !a.lvh && a.solFile.None?
  {
  }

  /**
   * Every option of `visualize` is optional: whether a visualize command line
   * is accepted does not depend on -e, -r, -o, -t, -lvw, -lvt, -lvh or -s.
   */
  lemma VisualizeOptionsOptional<F>(a: Args<F>)
    requires a.mode == Some(Visualize)
    ensures GrammarAccepts(a) <==>
              GrammarAccepts(a.(npzFile := None, resolution := None, outDir := None, tPoint := None,
                                lvw := false, lvt := false, lvh := false, solFile := None))
  {
  }

  /** Two or more verbosity flags are refused, whatever else is given. */
  lemma VerbosityFlagsExclusive<F>(a: Args<F>)
    requires (a.verbose && a.quiet) || (a.verbose && a.debug) || (a.quiet && a.debug)
    ensures !GrammarAccepts(a)
  {
  }
}
