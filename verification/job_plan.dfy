/** The control flow of one CRAB job processing one input file: grouping of
    luminosity blocks by run, one lumi mask per run, the conversion to NANOAOD
    (once, or once per run followed by a merge), and the skim or copy of the
    result into every declared output. Subprocesses, file copies and removals
    are not performed but recorded, in order, as steps of a plan. */
module JobPlan {
  import opened Wrappers
  import opened Text
  import opened Sorting
  import opened JobConfig

  /** The conversion settings the job reads from its parameter set. */
  datatype JobParams = JobParams(
    sampleType: string,
    cond: string,
    era: string,
    maxEvents: int,
    customise: string,
    customiseCmds: string,
    processEachRunSeparately: bool)

  /** What the job observes of its surroundings, fixed before it starts. */
  datatype Environment = Environment(
    lumis: seq<(int, int)>,         // (run, luminosity block) of the input file, in read order
    fileExists: string -> bool,     // whether a path exists when the job starts
    cmsswBase: string,              // the CMSSW_BASE environment variable
    jobDir: string)                 // the directory holding the job scripts

  /** An external program run to completion by the job. */
  datatype Invocation =
    | CmsDriver(input: string, output: string, sampleType: string, cond: string, era: string,
                maxEvents: int, lumiMask: Option<string>, customise: string, customiseCmds: string)
    | CmsRun(report: string, config: string)
    | HaddNano(tool: string, target: string, parts: seq<string>)
    | SkimTree(tool: string, input: string, output: string, config: string, setup: string,
               updateOutput: bool)

  /** One side effect of the job. */
  datatype Step =
    | RemoveFile(path: string)
    | WriteLumiMask(path: string, run: int, lumis: seq<int>)
    | MakeDirs(dir: string)
    | CopyFile(src: string, dst: string)
    | Call(invocation: Invocation)

  /** Why a job stops: the assertion on the outputs, an unsplittable
      customisation name, or the driver command used without being built. */
  datatype JobError = NoOutputs | BadCustomisation(customise: string) | UnboundDriverCommand

  /** Steps produced so far and the paths the job itself has created. */
  datatype Prepared = Prepared(steps: seq<Step>, created: set<string>)

  /** The whole job, phase by phase, and the final list of temporary files. */
  datatype Plan = Plan(
    prepare: seq<Step>,
    convert: seq<Step>,
    merge: seq<Step>,
    skim: seq<seq<Step>>,
    tmpFiles: seq<string>)

  const CmsRunOut := "cmsRun_out.root"
  const DriverConfig := "nano_NANO.py"
  const MaskBase := "lumi_mask"

  // ---------------------------------------------------------------------
  // Luminosity blocks and masks

  function RunsOf(lumis: seq<(int, int)>): set<int>
  {
    set p | p in lumis :: p.0
  }

  /** The luminosity blocks of `run`, in the order they were read. */
  function LumisOf(lumis: seq<(int, int)>, run: int): seq<int>
    decreases |lumis|
  {
    if |lumis| == 0 then []
    else
      var last := lumis[|lumis| - 1];
      LumisOf(lumis[..|lumis| - 1], run) + (if last.0 == run then [last.1] else [])
  }

  /** A block is listed under a run exactly when that (run, block) pair was
      read, and a run has blocks exactly when it was seen. */
  lemma {:induction false} LumisOfMembership(lumis: seq<(int, int)>, run: int)
    ensures forall lumi :: lumi in LumisOf(lumis, run) <==> (run, lumi) in lumis
    ensures |LumisOf(lumis, run)| > 0 <==> run in RunsOf(lumis)
    decreases |lumis|
  {
    if |lumis| > 0 {
      var init := lumis[..|lumis| - 1];
      LumisOfMembership(init, run);
      assert lumis == init + [lumis[|lumis| - 1]];
      assert RunsOf(lumis) == RunsOf(init) + {lumis[|lumis| - 1].0};
    }
  }

  /** Groups the blocks read from the input file by run. */
  method GetLumiList(lumis: seq<(int, int)>) returns (byRun: map<int, seq<int>>)
    ensures byRun.Keys == RunsOf(lumis)
    ensures forall run :: run in byRun ==> byRun[run] == LumisOf(lumis, run)
  {
    byRun := map[];
    var i := 0;
    while i < |lumis|
      invariant 0 <= i <= |lumis|
      invariant byRun.Keys == RunsOf(lumis[..i])
      invariant forall run :: run in byRun ==> byRun[run] == LumisOf(lumis[..i], run)
    {
      var (run, lumi) := lumis[i];
      assert lumis[..i + 1][..i] == lumis[..i];
      assert RunsOf(lumis[..i + 1]) == RunsOf(lumis[..i]) + {run} by {
        assert lumis[..i + 1] == lumis[..i] + [lumis[i]];
      }
      if run !in byRun {
        LumisOfMembership(lumis[..i], run);
        byRun := byRun[run := []];
      }
      byRun := byRun[run := byRun[run] + [lumi]];
      i := i + 1;
    }
    assert lumis[..i] == lumis;
  }

  /** The run number of every block, in read order. */
  function RunColumn(lumis: seq<(int, int)>): (runs: seq<int>)
  {
    seq(|lumis|, i requires 0 <= i < |lumis| => lumis[i].0)
  }

  lemma RunColumnElements(lumis: seq<(int, int)>)
    ensures Elements(RunColumn(lumis)) == RunsOf(lumis)
  {
    var runs := RunColumn(lumis);
    forall run | run in Elements(runs) ensures run in RunsOf(lumis) {
      var i :| 0 <= i < |runs| && runs[i] == run;
      assert lumis[i] in lumis;
    }
    forall run | run in RunsOf(lumis) ensures run in Elements(runs) {
      var p :| p in lumis && p.0 == run;
      var i :| 0 <= i < |lumis| && lumis[i] == p;
      assert runs[i] == run;
    }
  }

  /** The distinct runs of the input file in ascending order. */
  function AscendingRuns(lumis: seq<(int, int)>): (runs: seq<int>)
    ensures StrictlyAscending(runs)
    ensures Elements(runs) == RunsOf(lumis)
    ensures |runs| == |RunsOf(lumis)|
  {
    var runs := SortDistinct(RunColumn(lumis));
    RunColumnElements(lumis);
    StrictlyAscendingCard(runs);
    runs
  }

  /** The mask file of one run: `{output}_{run}.json`. */
  function MaskName(output: string, run: int): string
  {
    output + "_" + IntToString(run) + ".json"
  }

  /** Different runs get different mask files. */
  lemma MaskNameInjective(output: string, a: int, b: int)
    ensures MaskName(output, a) == MaskName(output, b) <==> a == b
  {
    if MaskName(output, a) == MaskName(output, b) {
      var n := |output| + 1;
      var sa := IntToString(a);
      var sb := IntToString(b);
      assert |sa| == |sb|;
      assert sa == MaskName(output, a)[n..n + |sa|];
      assert sb == MaskName(output, b)[n..n + |sb|];
      IntToStringInjective(a, b);
    }
  }

  /** Writes one lumi mask per distinct run, in ascending run order, each
      holding that run's blocks. */
  function CreateLumiMasksPerRun(output: string, lumis: seq<(int, int)>): (writes: seq<Step>)
    ensures |writes| == |RunsOf(lumis)|
    ensures forall k :: 0 <= k < |writes| ==> MaskWriteOf(output, lumis, writes[k])
    ensures forall run :: run in RunsOf(lumis) ==>
      exists k :: 0 <= k < |writes| && writes[k].WriteLumiMask? && writes[k].run == run
    ensures forall k, l :: 0 <= k < l < |writes| ==>
      writes[k].WriteLumiMask? && writes[l].WriteLumiMask? && writes[k].run < writes[l].run
  {
    var runs := AscendingRuns(lumis);
    var writes := MaskWrites(output, lumis, runs);
    MaskWritesCover(output, lumis, runs);
    writes
  }

  /** `step` writes the mask of one run of the file, holding its blocks. */
  predicate MaskWriteOf(output: string, lumis: seq<(int, int)>, step: Step)
  {
    && step.WriteLumiMask?
    && step.run in RunsOf(lumis)
    && step.path == MaskName(output, step.run)
    && step.lumis == LumisOf(lumis, step.run)
  }

  function MaskWrites(output: string, lumis: seq<(int, int)>, runs: seq<int>): seq<Step>
  {
    seq(|runs|, k requires 0 <= k < |runs| => WriteLumiMask(MaskName(output, runs[k]), runs[k], LumisOf(lumis, runs[k])))
  }

  lemma MaskWritesCover(output: string, lumis: seq<(int, int)>, runs: seq<int>)
    requires StrictlyAscending(runs) && Elements(runs) == RunsOf(lumis)
    ensures var writes := MaskWrites(output, lumis, runs);
      && (forall k :: 0 <= k < |writes| ==> writes[k].run == runs[k] && MaskWriteOf(output, lumis, writes[k]))
      && (forall run :: run in RunsOf(lumis) ==>
            exists k :: 0 <= k < |writes| && writes[k].WriteLumiMask? && writes[k].run == run)
  {
    var writes := MaskWrites(output, lumis, runs);
    forall k | 0 <= k < |writes| ensures writes[k].run == runs[k] && MaskWriteOf(output, lumis, writes[k]) {
      assert runs[k] in Elements(runs);
    }
    forall run | run in RunsOf(lumis)
      ensures exists k :: 0 <= k < |writes| && writes[k].WriteLumiMask? && writes[k].run == run
    {
      assert run in Elements(runs);
      var k :| 0 <= k < |runs| && runs[k] == run;
      assert writes[k].run == run;
    }
  }

  function MaskPaths(runs: seq<int>): seq<string>
  {
    seq(|runs|, k requires 0 <= k < |runs| => MaskName(MaskBase, runs[k]))
  }

  /** The converted file of one run. */
  function RunOutputName(run: int): string
  {
    "cmsRun_out_" + IntToString(run) + ".root"
  }

  function RunOutputs(runs: seq<int>): seq<string>
  {
    seq(|runs|, k requires 0 <= k < |runs| => RunOutputName(runs[k]))
  }

  // ---------------------------------------------------------------------
  // Conversion

  /** Debug mode (`DEBUG` as first argument) may switch the driver step off
      with any second argument other than `True`. */
  function RunsCmsDriver(args: seq<string>): (run: bool)
    ensures !run <==> |args| > 1 && args[0] == "DEBUG" && args[1] != "True"
  {
    var debug := |args| > 0 && args[0] == "DEBUG";
    if debug && |args| > 1 then args[1] == "True" else true
  }

  function Exists(env: Environment, created: set<string>, path: string): bool
  {
    env.fileExists(path) || path in created
  }

  /** Where the source of a customisation function `a/b/module.fn` is looked
      for and copied from. */
  datatype CustomisationPaths = CustomisationPaths(dir: string, target: string, sandbox: string)

  function CustomisationFiles(segments: seq<string>, env: Environment): CustomisationPaths
    requires |segments| == 3
  {
    var dir := PathJoin(PathJoin(PathJoin(PathJoin(env.cmsswBase, "src"), segments[0]), segments[1]), "python");
    CustomisationPaths(dir, PathJoin(dir, segments[2] + ".py"), PathJoin(env.jobDir, segments[2] + ".py"))
  }

  /** The customisation name does not split into a module path and a
      function name. */
  predicate BadCustomisationName(customise: string)
  {
    |customise| > 0 && |Split(customise, '.')| != 2
  }

  /** The conditions under which the job copies the customisation module
      from its own directory into the CMSSW area: a three-segment module
      path, no file there yet, and a file of that name beside the job. */
  predicate CopyNeeded(customise: string, env: Environment, created: set<string>)
  {
    && |customise| > 0
    && var parts := Split(customise, '.');
    && |parts| == 2
    && var segments := Split(parts[0], '/');
    && |segments| == 3
    && var paths := CustomisationFiles(segments, env);
    && !Exists(env, created, paths.target)
    && Exists(env, created, paths.sandbox)
  }

  /** Makes the customisation module importable before the driver runs. */
  function ResolveCustomisation(customise: string, env: Environment, created: set<string>)
    : (r: Result<Prepared, JobError>)
    ensures r.Failure? <==> BadCustomisationName(customise)
    ensures r.Failure? ==> r.error == BadCustomisation(customise)
    ensures r.Success? && !CopyNeeded(customise, env, created) ==> r.value == Prepared([], created)
    ensures r.Success? && CopyNeeded(customise, env, created) ==>
      var paths := CustomisationFiles(Split(Split(customise, '.')[0], '/'), env);
      && r.value.steps == [MakeDirs(paths.dir), CopyFile(paths.sandbox, paths.target)]
      && r.value.created == created + {paths.target}
  {
    if |customise| == 0 then Success(Prepared([], created))
    else
      var parts := Split(customise, '.');
      if |parts| != 2 then Failure(BadCustomisation(customise))
      else
        var segments := Split(parts[0], '/');
        if |segments| != 3 then Success(Prepared([], created))
        else
          var paths := CustomisationFiles(segments, env);
          if Exists(env, created, paths.target) then Success(Prepared([], created))
          else if Exists(env, created, paths.sandbox) then
            Success(Prepared([MakeDirs(paths.dir), CopyFile(paths.sandbox, paths.target)],
                             created + {paths.target}))
          else Success(Prepared([], created))
  }

  /** Preparing the customisation is idempotent: once done, doing it again
      copies nothing. */
  lemma ResolveCustomisationIdempotent(customise: string, env: Environment, created: set<string>)
    requires ResolveCustomisation(customise, env, created).Success?
    ensures var again := ResolveCustomisation(customise, env, ResolveCustomisation(customise, env, created).value.created);
      && again.Success?
      && again.value.steps == []
      && again.value.created == ResolveCustomisation(customise, env, created).value.created
  {
    var first := ResolveCustomisation(customise, env, created).value;
    if CopyNeeded(customise, env, created) {
      var paths := CustomisationFiles(Split(Split(customise, '.')[0], '/'), env);
      assert Exists(env, first.created, paths.target);
      assert !CopyNeeded(customise, env, first.created);
    }
  }

  /** The conversion stops the job: in debug mode without the driver step the
      driver command is used before it exists, and otherwise a customisation
      name must split on `.` into exactly two parts. */
  predicate ConversionFails(cfg: JobParams, runDriver: bool)
  {
    !runDriver || BadCustomisationName(cfg.customise)
  }

  function DriverCall(input: string, output: string, cfg: JobParams, mask: Option<string>): Invocation
  {
    CmsDriver(input, output, cfg.sampleType, cfg.cond, cfg.era, cfg.maxEvents, mask, cfg.customise, cfg.customiseCmds)
  }

  /** One conversion: prepare the customisation, generate the configuration
      with the driver, then run it with a job report. */
  function RunCmssw(input: string, output: string, cfg: JobParams, report: string, driverPy: string,
                    mask: Option<string>, runDriver: bool, env: Environment, created: set<string>)
    : (r: Result<Prepared, JobError>)
    ensures r.Failure? <==> ConversionFails(cfg, runDriver)
    ensures r.Failure? ==> r.error == (if !runDriver then UnboundDriverCommand else BadCustomisation(cfg.customise))
    ensures r.Success? ==>
      var s := r.value.steps;
      && |s| >= 2
      && s[|s| - 2] == Call(DriverCall(input, output, cfg, mask))
      && s[|s| - 1] == Call(CmsRun(report, driverPy))
      && (forall k :: 0 <= k < |s| - 2 ==> !s[k].Call?)
      && created <= r.value.created
    ensures r.Success? ==>
      var p := ResolveCustomisation(cfg.customise, env, created);
      && p.Success?
      && r.value.steps == p.value.steps + [Call(DriverCall(input, output, cfg, mask)), Call(CmsRun(report, driverPy))]
      && r.value.created == p.value.created
  {
    if !runDriver then Failure(UnboundDriverCommand)
    else
      var prep :- ResolveCustomisation(cfg.customise, env, created);
      Success(Prepared(prep.steps + [Call(DriverCall(input, output, cfg, mask)), Call(CmsRun(report, driverPy))],
                       prep.created))
  }

  /** The programs a sequence of steps runs, in order. */
  function Calls(steps: seq<Step>): seq<Invocation>
    decreases |steps|
  {
    if |steps| == 0 then []
    else Calls(steps[..|steps| - 1]) + (if steps[|steps| - 1].Call? then [steps[|steps| - 1].invocation] else [])
  }

  lemma {:induction false} CallsAppend(a: seq<Step>, b: seq<Step>)
    ensures Calls(a + b) == Calls(a) + Calls(b)
    decreases |b|
  {
    if |b| > 0 {
      var b' := b[..|b| - 1];
      assert (a + b)[..|a + b| - 1] == a + b';
      CallsAppend(a, b');
    } else {
      assert a + b == a;
    }
  }

  lemma {:induction false} CallsNone(s: seq<Step>)
    requires forall k :: 0 <= k < |s| ==> !s[k].Call?
    ensures Calls(s) == []
    decreases |s|
  {
    if |s| > 0 {
      CallsNone(s[..|s| - 1]);
    }
  }

  /** The programs of one conversion: the driver, then the configuration it
      generated. */
  lemma RunCmsswCalls(input: string, output: string, cfg: JobParams, report: string, driverPy: string,
                      mask: Option<string>, runDriver: bool, env: Environment, created: set<string>)
    requires RunCmssw(input, output, cfg, report, driverPy, mask, runDriver, env, created).Success?
    ensures Calls(RunCmssw(input, output, cfg, report, driverPy, mask, runDriver, env, created).value.steps)
      == [DriverCall(input, output, cfg, mask), CmsRun(report, driverPy)]
  {
    var prep := ResolveCustomisation(cfg.customise, env, created).value.steps;
    assert forall k :: 0 <= k < |prep| ==> !prep[k].Call?;
    CallsOfTwo(prep, DriverCall(input, output, cfg, mask), CmsRun(report, driverPy));
  }

  /** Steps that run no program, followed by two program calls, run exactly
      those two programs. */
  lemma CallsOfTwo(pre: seq<Step>, a: Invocation, b: Invocation)
    requires forall k :: 0 <= k < |pre| ==> !pre[k].Call?
    ensures Calls(pre + [Call(a), Call(b)]) == [a, b]
  {
    var s := pre + [Call(a), Call(b)];
    CallsNone(pre);
    CallsAppend(pre + [Call(a)], [Call(b)]);
    CallsAppend(pre, [Call(a)]);
    assert pre + [Call(a), Call(b)] == pre + [Call(a)] + [Call(b)];
    assert Calls([Call(a)]) == [a] by { assert [Call(a)][..0] == []; }
    assert Calls([Call(b)]) == [b] by { assert [Call(b)][..0] == []; }
  }

  /** `calls` runs, for each run in order, the driver restricted to the run's
      mask and writing the run's own file, then the generated configuration. */
  predicate PerRunCalls(calls: seq<Invocation>, runs: seq<int>, input: string, cfg: JobParams, report: string)
  {
    && |calls| == 2 * |runs|
    && forall k :: 0 <= k < |runs| ==>
         && calls[2 * k] == DriverCall(input, RunOutputName(runs[k]), cfg, Some(MaskName(MaskBase, runs[k])))
         && calls[2 * k + 1] == CmsRun(report, DriverConfig)
  }

  lemma PerRunCallsCons(calls: seq<Invocation>, runs: seq<int>, input: string, cfg: JobParams, report: string)
    requires |runs| > 0
    requires PerRunCalls(calls, runs[1..], input, cfg, report)
    ensures PerRunCalls([DriverCall(input, RunOutputName(runs[0]), cfg, Some(MaskName(MaskBase, runs[0]))),
                         CmsRun(report, DriverConfig)] + calls, runs, input, cfg, report)
  {
    var all := [DriverCall(input, RunOutputName(runs[0]), cfg, Some(MaskName(MaskBase, runs[0]))),
                CmsRun(report, DriverConfig)] + calls;
    forall k | 1 <= k < |runs|
      ensures all[2 * k] == DriverCall(input, RunOutputName(runs[k]), cfg, Some(MaskName(MaskBase, runs[k])))
      ensures all[2 * k + 1] == CmsRun(report, DriverConfig)
    {
      assert all[2 * k] == calls[2 * (k - 1)];
      assert all[2 * k + 1] == calls[2 * (k - 1) + 1];
      assert runs[1..][k - 1] == runs[k];
    }
  }

  /** One conversion per run, in the given order, each restricted to the run's
      mask and writing the run's own file. */
  function PerRunConversions(runs: seq<int>, input: string, cfg: JobParams, report: string, runDriver: bool,
                             env: Environment, created: set<string>)
    : (r: Result<Prepared, JobError>)
    ensures r.Failure? <==> |runs| > 0 && ConversionFails(cfg, runDriver)
    ensures r.Success? ==> PerRunCalls(Calls(r.value.steps), runs, input, cfg, report)
    decreases |runs|
  {
    if |runs| == 0 then
      assert Calls([]) == [];
      Success(Prepared([], created))
    else
      var mask := Some(MaskName(MaskBase, runs[0]));
      var first :- RunCmssw(input, RunOutputName(runs[0]), cfg, report, DriverConfig, mask, runDriver, env, created);
      match PerRunConversions(runs[1..], input, cfg, report, runDriver, env, first.created)
      case Failure(e) => Failure(e)
      case Success(rest) =>
        RunCmsswCalls(input, RunOutputName(runs[0]), cfg, report, DriverConfig, mask, runDriver, env, created);
        CallsAppend(first.steps, rest.steps);
        PerRunCallsCons(Calls(rest.steps), runs, input, cfg, report);
        Success(Prepared(first.steps + rest.steps, rest.created))
  }

  /** A non-empty sequence of conversions is the first run's conversion
      followed by the rest, which starts from the paths the first created. */
  lemma PerRunConversionsCons(runs: seq<int>, input: string, cfg: JobParams, report: string,
                              runDriver: bool, env: Environment, created: set<string>)
    requires PerRunConversions(runs, input, cfg, report, runDriver, env, created).Success?
    requires |runs| > 0
    ensures var first := RunCmssw(input, RunOutputName(runs[0]), cfg, report, DriverConfig,
                                  Some(MaskName(MaskBase, runs[0])), runDriver, env, created);
      && first.Success?
      && var rest := PerRunConversions(runs[1..], input, cfg, report, runDriver, env, first.value.created);
      && rest.Success?
      && PerRunConversions(runs, input, cfg, report, runDriver, env, created).value.steps
         == first.value.steps + rest.value.steps
  {
  }

  /** No step copies a file. */
  predicate NoCopies(s: seq<Step>)
  {
    forall k :: 0 <= k < |s| ==> !s[k].CopyFile?
  }

  /** The second step is the copy `copy`, the first runs no program, and no
      other step copies a file. */
  predicate CopiesFirst(s: seq<Step>, copy: Step)
  {
    && copy.CopyFile?
    && |s| >= 2 && !s[0].Call? && s[1] == copy
    && forall k :: 0 <= k < |s| && k != 1 ==> !s[k].CopyFile?
  }

  lemma NoCopiesAppend(a: seq<Step>, b: seq<Step>)
    requires NoCopies(a) && NoCopies(b)
    ensures NoCopies(a + b)
  {
    forall k | 0 <= k < |a + b| ensures !(a + b)[k].CopyFile? {
      if k >= |a| {
        assert (a + b)[k] == b[k - |a|];
      }
    }
  }

  lemma CopiesFirstAppend(a: seq<Step>, b: seq<Step>, copy: Step)
    requires CopiesFirst(a, copy) && NoCopies(b)
    ensures CopiesFirst(a + b, copy)
  {
    forall k | 0 <= k < |a + b| && k != 1 ensures !(a + b)[k].CopyFile? {
      if k >= |a| {
        assert (a + b)[k] == b[k - |a|];
      }
    }
  }

  /** One conversion copies the customisation module exactly when it is
      missing, as its second step, and afterwards it is no longer missing. */
  lemma RunCmsswCopies(input: string, output: string, cfg: JobParams, report: string, driverPy: string,
                       mask: Option<string>, runDriver: bool, env: Environment, created: set<string>)
    requires RunCmssw(input, output, cfg, report, driverPy, mask, runDriver, env, created).Success?
    ensures var r := RunCmssw(input, output, cfg, report, driverPy, mask, runDriver, env, created).value;
      && (!CopyNeeded(cfg.customise, env, created) ==> NoCopies(r.steps) && r.created == created)
      && (CopyNeeded(cfg.customise, env, created) ==>
            && var paths := CustomisationFiles(Split(Split(cfg.customise, '.')[0], '/'), env);
            && CopiesFirst(r.steps, CopyFile(paths.sandbox, paths.target))
            && !CopyNeeded(cfg.customise, env, r.created))
  {
    var r := RunCmssw(input, output, cfg, report, driverPy, mask, runDriver, env, created).value;
    if CopyNeeded(cfg.customise, env, created) {
      var paths := CustomisationFiles(Split(Split(cfg.customise, '.')[0], '/'), env);
      assert paths.target in r.created;
    }
  }

  /** Once nothing is left to copy, a sequence of conversions copies
      nothing. */
  lemma {:induction false} PerRunConversionsNoCopy(runs: seq<int>, input: string, cfg: JobParams, report: string,
                                                   runDriver: bool, env: Environment, created: set<string>)
    requires PerRunConversions(runs, input, cfg, report, runDriver, env, created).Success?
    requires !CopyNeeded(cfg.customise, env, created)
    ensures NoCopies(PerRunConversions(runs, input, cfg, report, runDriver, env, created).value.steps)
    decreases |runs|
  {
    if |runs| > 0 {
      PerRunConversionsCons(runs, input, cfg, report, runDriver, env, created);
      var mask := Some(MaskName(MaskBase, runs[0]));
      var first := RunCmssw(input, RunOutputName(runs[0]), cfg, report, DriverConfig, mask, runDriver, env, created).value;
      RunCmsswCopies(input, RunOutputName(runs[0]), cfg, report, DriverConfig, mask, runDriver, env, created);
      PerRunConversionsNoCopy(runs[1..], input, cfg, report, runDriver, env, first.created);
      NoCopiesAppend(first.steps, PerRunConversions(runs[1..], input, cfg, report, runDriver, env, first.created).value.steps);
    } else {
      assert PerRunConversions(runs, input, cfg, report, runDriver, env, created).value.steps == [];
    }
  }

  /** When the customisation module is missing, the first conversion copies
      it, as its second step, and no other step copies anything. */
  lemma PerRunConversionsCopy(runs: seq<int>, input: string, cfg: JobParams, report: string,
                              runDriver: bool, env: Environment, created: set<string>)
    requires PerRunConversions(runs, input, cfg, report, runDriver, env, created).Success?
    requires |runs| > 0 && CopyNeeded(cfg.customise, env, created)
    ensures var paths := CustomisationFiles(Split(Split(cfg.customise, '.')[0], '/'), env);
      CopiesFirst(PerRunConversions(runs, input, cfg, report, runDriver, env, created).value.steps,
                  CopyFile(paths.sandbox, paths.target))
  {
    PerRunConversionsCons(runs, input, cfg, report, runDriver, env, created);
    var mask := Some(MaskName(MaskBase, runs[0]));
    var first := RunCmssw(input, RunOutputName(runs[0]), cfg, report, DriverConfig, mask, runDriver, env, created).value;
    RunCmsswCopies(input, RunOutputName(runs[0]), cfg, report, DriverConfig, mask, runDriver, env, created);
    PerRunConversionsNoCopy(runs[1..], input, cfg, report, runDriver, env, first.created);
    var paths := CustomisationFiles(Split(Split(cfg.customise, '.')[0], '/'), env);
    CopiesFirstAppend(first.steps, PerRunConversions(runs[1..], input, cfg, report, runDriver, env, first.created).value.steps,
                      CopyFile(paths.sandbox, paths.target));
  }

  // ---------------------------------------------------------------------
  // Skims

  /** The file a step writes, if it writes one. */
  function Destination(step: Step): Option<string>
  {
    match step
    case RemoveFile(_) => None
    case WriteLumiMask(path, _, _) => Some(path)
    case MakeDirs(_) => None
    case CopyFile(_, dst) => Some(dst)
    case Call(inv) =>
      match inv
      case CmsDriver(_, output, _, _, _, _, _, _, _) => Some(output)
      case CmsRun(_, _) => None
      case HaddNano(_, target, _) => Some(target)
      case SkimTree(_, _, output, _, _, _) => Some(output)
  }

  /** Produces one declared output from the converted file: a skim with the
      primary setup (skipping empty results), followed, whenever a fallback
      setup is declared, by a second skim with the fallback setup updating
      the same file; or, with no skim configuration, a plain copy. */
  function SkimOutput(tool: string, source: string, o: OutputDescriptor): (steps: seq<Step>)
    ensures 1 <= |steps| <= 2
    ensures forall k :: 0 <= k < |steps| ==> Destination(steps[k]) == Some(o.file)
    ensures |o.skimCfg| == 0 ==> steps == [CopyFile(source, o.file)]
    ensures |o.skimCfg| > 0 ==> steps[0] == Call(SkimTree(tool, source, o.file, o.skimCfg, o.skimSetup, false))
    ensures |steps| == 2 <==> |o.skimCfg| > 0 && |o.skimSetupFailed| > 0
    ensures |steps| == 2 ==>
      steps[1] == Call(SkimTree(tool, source, o.file, o.skimCfg, o.skimSetupFailed, true))
  {
    if |o.skimCfg| > 0 then
      var primary := Call(SkimTree(tool, source, o.file, o.skimCfg, o.skimSetup, false));
      if |o.skimSetupFailed| > 0 then
        [primary, Call(SkimTree(tool, source, o.file, o.skimCfg, o.skimSetupFailed, true))]
      else [primary]
    else [CopyFile(source, o.file)]
  }

  /** For a line the wrapper accepts, every skim names a setup, the primary
      setup is known to a readable configuration, and a fallback skim only
      ever follows a primary skim of the same file. The fallback setup is
      known to a readable configuration only when the corrected check also
      accepts the line. */
  lemma AcceptedOutputSkims(line: string, reader: SkimConfigReader, tool: string, source: string)
    requires ParseOutputLine(line, reader).Success?
    ensures var o := ParseOutputLine(line, reader).value;
      var steps := SkimOutput(tool, source, o);
      && (forall k :: 0 <= k < |steps| && steps[k].Call? ==> |steps[k].invocation.setup| > 0)
      && (forall k :: (0 <= k < |steps| && steps[k].Call? && !steps[k].invocation.updateOutput
                       && reader(o.skimCfg).Some?) ==> steps[k].invocation.setup in reader(o.skimCfg).value)
      && (forall k :: 0 <= k < |steps| && steps[k].Call? && steps[k].invocation.updateOutput ==>
            k == 1 && steps[0] == Call(SkimTree(tool, source, o.file, o.skimCfg, o.skimSetup, false)))
      && (ParseOutputLineIntended(line, reader).Success? ==>
            forall k :: 0 <= k < |steps| && steps[k].Call? && reader(o.skimCfg).Some? ==>
              steps[k].invocation.setup in reader(o.skimCfg).value)
  {
    CorrectedCheckDiffers(line, reader);
  }

  function SkimTool(env: Environment): string
  {
    PathJoin(env.jobDir, "skim_tree.py")
  }

  function HaddTool(env: Environment): string
  {
    PathJoin(env.jobDir, "haddnano.py")
  }

  function SkimStage(tool: string, source: string, outputs: seq<OutputDescriptor>): seq<seq<Step>>
  {
    seq(|outputs|, i requires 0 <= i < |outputs| => SkimOutput(tool, source, outputs[i]))
  }

  // ---------------------------------------------------------------------
  // The job

  /** Whether the job converts run by run: requested, and more than one run. */
  predicate Partitioned(cfg: JobParams, env: Environment)
  {
    cfg.processEachRunSeparately && |RunsOf(env.lumis)| > 1
  }

  /** The conversion phase and the merge phase, and the per-run files they
      add to the temporary files. */
  datatype Conversion = Conversion(convert: seq<Step>, merge: seq<Step>, parts: seq<string>)

  /** Converts run by run and merges when there is more than one run to
      convert; otherwise converts the whole file once, without a mask. */
  function ConvertAndMerge(runs: seq<int>, input: string, cfg: JobParams, report: string, runDriver: bool,
                           env: Environment)
    : (r: Result<Conversion, JobError>)
    ensures r.Failure? <==> ConversionFails(cfg, runDriver)
    ensures r.Failure? ==> r.error == (if !runDriver then UnboundDriverCommand else BadCustomisation(cfg.customise))
    ensures r.Success? && |runs| > 1 ==>
      && PerRunCalls(Calls(r.value.convert), runs, input, cfg, report)
      && r.value.merge == [Call(HaddNano(HaddTool(env), CmsRunOut, RunOutputs(runs)))]
      && r.value.parts == RunOutputs(runs)
    ensures r.Success? && |runs| <= 1 ==>
      && Calls(r.value.convert) == [DriverCall(input, CmsRunOut, cfg, None), CmsRun(report, DriverConfig)]
      && r.value.merge == []
      && r.value.parts == []
  {
    if |runs| > 1 then
      match PerRunConversions(runs, input, cfg, report, runDriver, env, {})
      case Failure(e) => Failure(e)
      case Success(conv) =>
        Success(Conversion(conv.steps, [Call(HaddNano(HaddTool(env), CmsRunOut, RunOutputs(runs)))], RunOutputs(runs)))
    else
      match RunCmssw(input, CmsRunOut, cfg, report, DriverConfig, None, runDriver, env, {})
      case Failure(e) => Failure(e)
      case Success(conv) =>
        RunCmsswCalls(input, CmsRunOut, cfg, report, DriverConfig, None, runDriver, env, {});
        Success(Conversion(conv.steps, [], []))
  }

  /** The conversion phase copies the customisation module exactly when it
      is missing, as its second step, and nowhere else. */
  lemma ConvertCopies(runs: seq<int>, input: string, cfg: JobParams, report: string, runDriver: bool,
                      env: Environment)
    requires ConvertAndMerge(runs, input, cfg, report, runDriver, env).Success?
    ensures var c := ConvertAndMerge(runs, input, cfg, report, runDriver, env).value.convert;
      && (!CopyNeeded(cfg.customise, env, {}) ==> NoCopies(c))
      && (CopyNeeded(cfg.customise, env, {}) ==>
            var paths := CustomisationFiles(Split(Split(cfg.customise, '.')[0], '/'), env);
            CopiesFirst(c, CopyFile(paths.sandbox, paths.target)))
  {
    if |runs| > 1 {
      if CopyNeeded(cfg.customise, env, {}) {
        PerRunConversionsCopy(runs, input, cfg, report, runDriver, env, {});
      } else {
        PerRunConversionsNoCopy(runs, input, cfg, report, runDriver, env, {});
      }
    } else {
      RunCmsswCopies(input, CmsRunOut, cfg, report, DriverConfig, None, runDriver, env, {});
    }
  }

  /** The runs the job converts separately: every run of the file when run by
      run processing is requested, none otherwise. */
  function RequestedRuns(cfg: JobParams, env: Environment): (runs: seq<int>)
    ensures |runs| > 1 <==> Partitioned(cfg, env)
    ensures cfg.processEachRunSeparately ==> StrictlyAscending(runs) && Elements(runs) == RunsOf(env.lumis)
    ensures !cfg.processEachRunSeparately ==> runs == []
  {
    if cfg.processEachRunSeparately then AscendingRuns(env.lumis) else []
  }

  /** Processes one input file. `tmp` is the caller's list of temporary
      files, which the job extends. */
  function ProcessFile(input: string, outputs: seq<OutputDescriptor>, tmp: seq<string>, report: string,
                       args: seq<string>, cfg: JobParams, env: Environment)
    : (r: Result<Plan, JobError>)
    ensures |outputs| == 0 ==> r == Failure(NoOutputs)
    ensures r.Failure? <==> |outputs| == 0 || ConversionFails(cfg, RunsCmsDriver(args))
    ensures r.Success? ==>
      && (r.value.merge != [] <==> Partitioned(cfg, env))
      && |r.value.skim| == |outputs|
      && (forall i :: 0 <= i < |outputs| ==> r.value.skim[i] == SkimOutput(SkimTool(env), CmsRunOut, outputs[i]))
      && r.value.tmpFiles == tmp + ([DriverConfig] + MaskPaths(RequestedRuns(cfg, env))
                                    + (if Partitioned(cfg, env) then RunOutputs(RequestedRuns(cfg, env)) else []))
  {
    if |outputs| == 0 then Failure(NoOutputs)
    else
      var removal := if env.fileExists(CmsRunOut) then [RemoveFile(CmsRunOut)] else [];
      var masks := if cfg.processEachRunSeparately then CreateLumiMasksPerRun(MaskBase, env.lumis) else [];
      var runs := RequestedRuns(cfg, env);
      match ConvertAndMerge(runs, input, cfg, report, RunsCmsDriver(args), env)
      case Failure(e) => Failure(e)
      case Success(c) =>
        var tmpFiles := tmp + ([DriverConfig] + MaskPaths(runs) + c.parts);
        Success(Plan(removal + masks, c.convert, c.merge, SkimStage(SkimTool(env), CmsRunOut, outputs), tmpFiles))
  }

  /** All steps of a plan in execution order. */
  function Trace(p: Plan): seq<Step>
  {
    p.prepare + p.convert + p.merge + Flatten(p.skim)
  }

  function Flatten(parts: seq<seq<Step>>): seq<Step>
    decreases |parts|
  {
    if |parts| == 0 then [] else parts[0] + Flatten(parts[1..])
  }

  /** The phase of the job a step belongs to: 0 clears the stale output and
      writes the masks, 1 converts (preparing the customisation included), 2
      merges, 3 produces the declared outputs, which read the converted file. */
  function Phase(step: Step): nat
  {
    match step
    case RemoveFile(_) => 0
    case WriteLumiMask(_, _, _) => 0
    case MakeDirs(_) => 1
    case CopyFile(src, _) => if src == CmsRunOut then 3 else 1
    case Call(inv) =>
      match inv
      case CmsDriver(_, _, _, _, _, _, _, _, _) => 1
      case CmsRun(_, _) => 1
      case HaddNano(_, _, _) => 2
      case SkimTree(_, _, _, _, _, _) => 3
  }

  predicate InPhase(steps: seq<Step>, phase: nat)
  {
    forall k :: 0 <= k < |steps| ==> Phase(steps[k]) == phase
  }

  /** The customisation module is copied from a `.py` file beside the job,
      never from the converted file. */
  lemma SandboxIsNotCmsRunOut(segments: seq<string>, env: Environment)
    requires |segments| == 3
    ensures CustomisationFiles(segments, env).sandbox != CmsRunOut
  {
    var name := segments[2] + ".py";
    var sandbox := CustomisationFiles(segments, env).sandbox;
    PathJoinEndsWith(env.jobDir, name);
    assert sandbox[|sandbox| - 1] == name[|name| - 1] == 'y';
    assert CmsRunOut[|CmsRunOut| - 1] == 't';
  }

  /** Every step of a conversion belongs to the conversion phase. */
  lemma RunCmsswPhase(input: string, output: string, cfg: JobParams, report: string, driverPy: string,
                      mask: Option<string>, runDriver: bool, env: Environment, created: set<string>)
    requires RunCmssw(input, output, cfg, report, driverPy, mask, runDriver, env, created).Success?
    ensures InPhase(RunCmssw(input, output, cfg, report, driverPy, mask, runDriver, env, created).value.steps, 1)
  {
    if CopyNeeded(cfg.customise, env, created) {
      SandboxIsNotCmsRunOut(Split(Split(cfg.customise, '.')[0], '/'), env);
    }
  }

  lemma {:induction false} PerRunConversionsPhase(runs: seq<int>, input: string, cfg: JobParams, report: string,
                                                  runDriver: bool, env: Environment, created: set<string>)
    requires PerRunConversions(runs, input, cfg, report, runDriver, env, created).Success?
    ensures InPhase(PerRunConversions(runs, input, cfg, report, runDriver, env, created).value.steps, 1)
    decreases |runs|
  {
    if |runs| > 0 {
      PerRunConversionsCons(runs, input, cfg, report, runDriver, env, created);
      var mask := Some(MaskName(MaskBase, runs[0]));
      var first := RunCmssw(input, RunOutputName(runs[0]), cfg, report, DriverConfig, mask, runDriver, env, created);
      RunCmsswPhase(input, RunOutputName(runs[0]), cfg, report, DriverConfig, mask, runDriver, env, created);
      PerRunConversionsPhase(runs[1..], input, cfg, report, runDriver, env, first.value.created);
    }
  }

  /** The conversion and merge phases, spelled out by case. */
  lemma ConvertAndMergeSteps(runs: seq<int>, input: string, cfg: JobParams, report: string, runDriver: bool,
                             env: Environment)
    requires ConvertAndMerge(runs, input, cfg, report, runDriver, env).Success?
    ensures var r := ConvertAndMerge(runs, input, cfg, report, runDriver, env).value;
      && (|runs| > 1 ==>
            && PerRunConversions(runs, input, cfg, report, runDriver, env, {}).Success?
            && r.convert == PerRunConversions(runs, input, cfg, report, runDriver, env, {}).value.steps
            && r.merge == [Call(HaddNano(HaddTool(env), CmsRunOut, RunOutputs(runs)))])
      && (|runs| <= 1 ==>
            && RunCmssw(input, CmsRunOut, cfg, report, DriverConfig, None, runDriver, env, {}).Success?
            && r.convert == RunCmssw(input, CmsRunOut, cfg, report, DriverConfig, None, runDriver, env, {}).value.steps
            && r.merge == [])
  {
  }

  /** The conversion steps are all conversion-phase steps and the merge steps
      all merge-phase steps. */
  lemma ConvertAndMergePhase(runs: seq<int>, input: string, cfg: JobParams, report: string, runDriver: bool,
                             env: Environment)
    requires ConvertAndMerge(runs, input, cfg, report, runDriver, env).Success?
    ensures InPhase(ConvertAndMerge(runs, input, cfg, report, runDriver, env).value.convert, 1)
    ensures InPhase(ConvertAndMerge(runs, input, cfg, report, runDriver, env).value.merge, 2)
  {
    ConvertAndMergeSteps(runs, input, cfg, report, runDriver, env);
    var r := ConvertAndMerge(runs, input, cfg, report, runDriver, env).value;
    if |runs| > 1 {
      var steps := PerRunConversions(runs, input, cfg, report, runDriver, env, {}).value.steps;
      PerRunConversionsPhase(runs, input, cfg, report, runDriver, env, {});
      InPhaseEqual(r.convert, steps, 1);
      MergePhase(HaddTool(env), CmsRunOut, RunOutputs(runs));
      InPhaseEqual(r.merge, [Call(HaddNano(HaddTool(env), CmsRunOut, RunOutputs(runs)))], 2);
    } else {
      var steps := RunCmssw(input, CmsRunOut, cfg, report, DriverConfig, None, runDriver, env, {}).value.steps;
      RunCmsswPhase(input, CmsRunOut, cfg, report, DriverConfig, None, runDriver, env, {});
      InPhaseEqual(r.convert, steps, 1);
      InPhaseEqual(r.merge, [], 2);
    }
  }

  lemma MergePhase(tool: string, target: string, parts: seq<string>)
    ensures InPhase([Call(HaddNano(tool, target, parts))], 2)
  {
  }

  lemma InPhaseEqual(a: seq<Step>, b: seq<Step>, phase: nat)
    requires a == b && InPhase(b, phase)
    ensures InPhase(a, phase)
  {
  }

  lemma {:induction false} FlattenPhase(parts: seq<seq<Step>>, phase: nat)
    requires forall i :: 0 <= i < |parts| ==> InPhase(parts[i], phase)
    ensures InPhase(Flatten(parts), phase)
    decreases |parts|
  {
    if |parts| > 0 {
      FlattenPhase(parts[1..], phase);
      var rest := Flatten(parts[1..]);
      forall k | 0 <= k < |Flatten(parts)| ensures Phase(Flatten(parts)[k]) == phase {
        if k >= |parts[0]| {
          assert Flatten(parts)[k] == rest[k - |parts[0]|];
        } else {
          assert Flatten(parts)[k] == parts[0][k];
        }
      }
    }
  }

  /** Skims and copies of the converted file all belong to the output phase. */
  lemma SkimStagePhase(tool: string, outputs: seq<OutputDescriptor>)
    ensures InPhase(Flatten(SkimStage(tool, CmsRunOut, outputs)), 3)
  {
    var parts := SkimStage(tool, CmsRunOut, outputs);
    forall i | 0 <= i < |parts| ensures InPhase(parts[i], 3) {
      assert parts[i] == SkimOutput(tool, CmsRunOut, outputs[i]);
    }
    FlattenPhase(parts, 3);
  }
}

module JobPlanProperties {
  import opened Wrappers
  import opened Text
  import opened Sorting
  import opened JobConfig
  import opened JobPlan

  /** Run-by-run mode: one conversion per run in ascending run order, each with
      the run's mask and output, then a single merge of the per-run outputs
      in the same order into the job's converted file. */
  lemma PartitionedPlan(input: string, outputs: seq<OutputDescriptor>, tmp: seq<string>, report: string,
                        args: seq<string>, cfg: JobParams, env: Environment)
    requires ProcessFile(input, outputs, tmp, report, args, cfg, env).Success?
    requires Partitioned(cfg, env)
    ensures var p := ProcessFile(input, outputs, tmp, report, args, cfg, env).value;
      var runs := AscendingRuns(env.lumis);
      && StrictlyAscending(runs) && Elements(runs) == RunsOf(env.lumis)
      && PerRunCalls(Calls(p.convert), runs, input, cfg, report)
      && p.merge == [Call(HaddNano(HaddTool(env), CmsRunOut, RunOutputs(runs)))]
  {
  }

  /** Whole-file mode (not requested, or at most one run): exactly one
      conversion, without a mask, writing the job's converted file, and no
      merge. */
  lemma UnpartitionedPlan(input: string, outputs: seq<OutputDescriptor>, tmp: seq<string>, report: string,
                          args: seq<string>, cfg: JobParams, env: Environment)
    requires ProcessFile(input, outputs, tmp, report, args, cfg, env).Success?
    requires !Partitioned(cfg, env)
    ensures var p := ProcessFile(input, outputs, tmp, report, args, cfg, env).value;
      && Calls(p.convert) == [DriverCall(input, CmsRunOut, cfg, None), CmsRun(report, DriverConfig)]
      && p.merge == []
  {
  }

  lemma MaskNameIsNotCmsRunOut(run: int)
    ensures MaskName(MaskBase, run) != CmsRunOut
  {
    assert MaskName(MaskBase, run)[0] == 'l';
  }

  lemma RunOutputIsNotCmsRunOut(run: int)
    ensures RunOutputName(run) != CmsRunOut
  {
    assert RunOutputName(run)[10] == '_';
    assert CmsRunOut[10] == '.';
  }

  lemma MaskPathsMembers(runs: seq<int>)
    ensures forall run :: run in runs ==> MaskName(MaskBase, run) in MaskPaths(runs)
    ensures CmsRunOut !in MaskPaths(runs)
  {
    var paths := MaskPaths(runs);
    forall run | run in runs ensures MaskName(MaskBase, run) in paths {
      var k :| 0 <= k < |runs| && runs[k] == run;
      assert paths[k] == MaskName(MaskBase, run);
    }
    forall k | 0 <= k < |paths| ensures paths[k] != CmsRunOut {
      MaskNameIsNotCmsRunOut(runs[k]);
    }
  }

  lemma RunOutputsMembers(runs: seq<int>)
    ensures forall run :: run in runs ==> RunOutputName(run) in RunOutputs(runs)
    ensures CmsRunOut !in RunOutputs(runs)
  {
    var parts := RunOutputs(runs);
    forall run | run in runs ensures RunOutputName(run) in parts {
      var k :| 0 <= k < |runs| && runs[k] == run;
      assert parts[k] == RunOutputName(run);
    }
    forall k | 0 <= k < |parts| ensures parts[k] != CmsRunOut {
      RunOutputIsNotCmsRunOut(runs[k]);
    }
  }

  /** What the job appends to the temporary files, for the runs it masks and
      the per-run files it converts. */
  lemma AddedFiles(runs: seq<int>, parts: seq<string>)
    requires parts == [] || parts == RunOutputs(runs)
    ensures var added := [DriverConfig] + MaskPaths(runs) + parts;
      && (forall run :: run in runs ==> MaskName(MaskBase, run) in added)
      && (parts != [] ==> forall run :: run in runs ==> RunOutputName(run) in added)
      && CmsRunOut !in added
  {
    MaskPathsMembers(runs);
    RunOutputsMembers(runs);
    assert DriverConfig != CmsRunOut by {
      assert DriverConfig[0] != CmsRunOut[0];
    }
  }

  /** The temporary files only grow: the caller's list is kept as a prefix,
      the generated configuration comes first, every mask file is listed when
      run-by-run processing is requested (even if it then falls back to a
      single conversion), every per-run file is listed when converting run
      by run, and the job's converted file itself is never listed. */
  lemma TemporaryFiles(input: string, outputs: seq<OutputDescriptor>, tmp: seq<string>, report: string,
                       args: seq<string>, cfg: JobParams, env: Environment)
    requires ProcessFile(input, outputs, tmp, report, args, cfg, env).Success?
    ensures TmpFilesGrow(tmp, ProcessFile(input, outputs, tmp, report, args, cfg, env).value.tmpFiles, cfg, env)
  {
    var files := ProcessFile(input, outputs, tmp, report, args, cfg, env).value.tmpFiles;
    var runs := RequestedRuns(cfg, env);
    var parts := if Partitioned(cfg, env) then RunOutputs(runs) else [];
    TmpListContents(tmp, files, runs, parts, cfg, env);
  }

  /** `files` extends `tmp` as the job promises. */
  predicate TmpFilesGrow(tmp: seq<string>, files: seq<string>, cfg: JobParams, env: Environment)
  {
    && |files| > |tmp|
    && files[..|tmp|] == tmp
    && files[|tmp|] == DriverConfig
    && (cfg.processEachRunSeparately ==>
          forall run :: run in RunsOf(env.lumis) ==> MaskName(MaskBase, run) in files[|tmp|..])
    && (Partitioned(cfg, env) ==>
          forall run :: run in RunsOf(env.lumis) ==> RunOutputName(run) in files[|tmp|..])
    && CmsRunOut !in files[|tmp|..]
  }

  lemma TmpListContents(tmp: seq<string>, files: seq<string>, runs: seq<int>, parts: seq<string>,
                        cfg: JobParams, env: Environment)
    requires cfg.processEachRunSeparately ==> Elements(runs) == RunsOf(env.lumis)
    requires parts == [] || parts == RunOutputs(runs)
    requires Partitioned(cfg, env) ==> parts == RunOutputs(runs) && cfg.processEachRunSeparately
    requires files == tmp + ([DriverConfig] + MaskPaths(runs) + parts)
    ensures TmpFilesGrow(tmp, files, cfg, env)
  {
    var added := [DriverConfig] + MaskPaths(runs) + parts;
    assert files[..|tmp|] == tmp;
    assert files[|tmp|..] == added;
    AddedFiles(runs, parts);
  }

  /** Before converting, the job removes a stale converted file and, when run
      by run processing is requested, writes the mask of every run of the
      file (once per run, in ascending order, with that run's blocks);
      otherwise it writes no mask. */
  lemma PreparationSteps(input: string, outputs: seq<OutputDescriptor>, tmp: seq<string>, report: string,
                         args: seq<string>, cfg: JobParams, env: Environment)
    requires ProcessFile(input, outputs, tmp, report, args, cfg, env).Success?
    ensures var p := ProcessFile(input, outputs, tmp, report, args, cfg, env).value.prepare;
      var removal := if env.fileExists(CmsRunOut) then [RemoveFile(CmsRunOut)] else [];
      && p[..|removal|] == removal
      && (cfg.processEachRunSeparately ==> p[|removal|..] == CreateLumiMasksPerRun(MaskBase, env.lumis))
      && (!cfg.processEachRunSeparately ==> p == removal)
  {
  }

  /** With at most one run in the file, asking for run-by-run processing
      changes nothing but the mask files: the same conversion, no merge, and
      the same skims. */
  lemma SingleRunCollapse(input: string, outputs: seq<OutputDescriptor>, tmp: seq<string>, report: string,
                          args: seq<string>, cfg: JobParams, env: Environment)
    requires |RunsOf(env.lumis)| <= 1
    ensures var split := ProcessFile(input, outputs, tmp, report, args, cfg.(processEachRunSeparately := true), env);
      var whole := ProcessFile(input, outputs, tmp, report, args, cfg.(processEachRunSeparately := false), env);
      && split.Success? == whole.Success?
      && (split.Success? ==>
            && split.value.convert == whole.value.convert
            && split.value.merge == whole.value.merge == []
            && split.value.skim == whole.value.skim)
  {
    var on := cfg.(processEachRunSeparately := true);
    var off := cfg.(processEachRunSeparately := false);
    assert DriverCall(input, CmsRunOut, on, None) == DriverCall(input, CmsRunOut, off, None);
    assert ResolveCustomisation(on.customise, env, {}) == ResolveCustomisation(off.customise, env, {});
  }

  /** The job copies the customisation module at most once: exactly when it
      is missing from the CMSSW area and present beside the job, from there
      into the area, and before any program runs. */
  lemma CustomisationCopiedOnce(input: string, outputs: seq<OutputDescriptor>, tmp: seq<string>, report: string,
                                args: seq<string>, cfg: JobParams, env: Environment)
    requires ProcessFile(input, outputs, tmp, report, args, cfg, env).Success?
    ensures var c := ProcessFile(input, outputs, tmp, report, args, cfg, env).value.convert;
      && ((exists k :: 0 <= k < |c| && c[k].CopyFile?) <==> CopyNeeded(cfg.customise, env, {}))
      && (forall k :: 0 <= k < |c| && c[k].CopyFile? ==>
            && CopyNeeded(cfg.customise, env, {})
            && var paths := CustomisationFiles(Split(Split(cfg.customise, '.')[0], '/'), env);
            && c[k] == CopyFile(paths.sandbox, paths.target))
      && (forall k, j :: 0 <= k < |c| && 0 <= j < |c| && c[k].CopyFile? && c[j].CopyFile? ==> k == j)
      && (forall k, j :: 0 <= k < |c| && 0 <= j < |c| && c[k].CopyFile? && c[j].Call? ==> k < j)
  {
    ConvertCopies(RequestedRuns(cfg, env), input, cfg, report, RunsCmsDriver(args), env);
  }

  /** Four blocks of steps, each in a single phase and in increasing phase
      order, run in phase order when concatenated. */
  lemma PhaseBlocksOrdered(a: seq<Step>, b: seq<Step>, c: seq<Step>, d: seq<Step>)
    requires InPhase(a, 0) && InPhase(b, 1) && InPhase(c, 2) && InPhase(d, 3)
    ensures var t := a + b + c + d;
      forall i, j :: 0 <= i < j < |t| ==> Phase(t[i]) <= Phase(t[j])
  {
    var t := a + b + c + d;
    var x, y, z := |a|, |a| + |b|, |a| + |b| + |c|;
    forall k | 0 <= k < |t|
      ensures Phase(t[k]) == if k < x then 0 else if k < y then 1 else if k < z then 2 else 3
    {
      if k < x {
        assert t[k] == a[k];
      } else if k < y {
        assert t[k] == b[k - x];
      } else if k < z {
        assert t[k] == c[k - y];
      } else {
        assert t[k] == d[k - z];
      }
    }
  }

  /** The parts of a plan, spelled out. */
  lemma ProcessFileParts(input: string, outputs: seq<OutputDescriptor>, tmp: seq<string>, report: string,
                         args: seq<string>, cfg: JobParams, env: Environment)
    requires ProcessFile(input, outputs, tmp, report, args, cfg, env).Success?
    ensures var p := ProcessFile(input, outputs, tmp, report, args, cfg, env).value;
      var c := ConvertAndMerge(RequestedRuns(cfg, env), input, cfg, report, RunsCmsDriver(args), env);
      && c.Success?
      && p.prepare == (if env.fileExists(CmsRunOut) then [RemoveFile(CmsRunOut)] else [])
                      + (if cfg.processEachRunSeparately then CreateLumiMasksPerRun(MaskBase, env.lumis) else [])
      && p.convert == c.value.convert
      && p.merge == c.value.merge
      && p.skim == SkimStage(SkimTool(env), CmsRunOut, outputs)
  {
  }

  /** Removing the stale output and writing masks are preparation steps. */
  lemma PreparePhase(removal: seq<Step>, masks: seq<Step>)
    requires removal == [] || removal == [RemoveFile(CmsRunOut)]
    requires forall k :: 0 <= k < |masks| ==> masks[k].WriteLumiMask?
    ensures InPhase(removal + masks, 0)
  {
    forall k | 0 <= k < |removal + masks| ensures Phase((removal + masks)[k]) == 0 {
      if k >= |removal| {
        assert (removal + masks)[k] == masks[k - |removal|];
      }
    }
  }

  /** Each part of a plan lies in its own phase. */
  lemma PlanPhases(input: string, outputs: seq<OutputDescriptor>, tmp: seq<string>, report: string,
                   args: seq<string>, cfg: JobParams, env: Environment)
    requires ProcessFile(input, outputs, tmp, report, args, cfg, env).Success?
    ensures var p := ProcessFile(input, outputs, tmp, report, args, cfg, env).value;
      InPhase(p.prepare, 0) && InPhase(p.convert, 1) && InPhase(p.merge, 2) && InPhase(Flatten(p.skim), 3)
  {
    var p := ProcessFile(input, outputs, tmp, report, args, cfg, env).value;
    ProcessFileParts(input, outputs, tmp, report, args, cfg, env);
    var c := ConvertAndMerge(RequestedRuns(cfg, env), input, cfg, report, RunsCmsDriver(args), env).value;
    ConvertAndMergePhase(RequestedRuns(cfg, env), input, cfg, report, RunsCmsDriver(args), env);
    InPhaseEqual(p.convert, c.convert, 1);
    InPhaseEqual(p.merge, c.merge, 2);
    SkimStagePhase(SkimTool(env), outputs);
    InPhaseEqual(Flatten(p.skim), Flatten(SkimStage(SkimTool(env), CmsRunOut, outputs)), 3);
    var removal := if env.fileExists(CmsRunOut) then [RemoveFile(CmsRunOut)] else [];
    var masks := if cfg.processEachRunSeparately then CreateLumiMasksPerRun(MaskBase, env.lumis) else [];
    PreparePhase(removal, masks);
    InPhaseEqual(p.prepare, removal + masks, 0);
  }

  /** The steps of a job run phase by phase: the stale output is removed and
      the masks written before anything else, every conversion step comes
      before the merge, and the merge before every skim and every copy of the
      converted file into an output. */
  lemma TraceInPhaseOrder(input: string, outputs: seq<OutputDescriptor>, tmp: seq<string>, report: string,
                          args: seq<string>, cfg: JobParams, env: Environment)
    requires ProcessFile(input, outputs, tmp, report, args, cfg, env).Success?
    ensures var t := Trace(ProcessFile(input, outputs, tmp, report, args, cfg, env).value);
      forall i, j :: 0 <= i < j < |t| ==> Phase(t[i]) <= Phase(t[j])
  {
    var p := ProcessFile(input, outputs, tmp, report, args, cfg, env).value;
    PlanPhases(input, outputs, tmp, report, args, cfg, env);
    PhaseBlocksOrdered(p.prepare, p.convert, p.merge, Flatten(p.skim));
  }
}
