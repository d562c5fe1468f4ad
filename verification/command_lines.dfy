/** The exact argument lists the job hands to its subprocesses, and readers
    that recover an invocation from its argument list. */
module CommandLines {
  import opened Wrappers
  import opened Text
  import opened JobPlan

  /** The fixed part of the driver command: 22 arguments. */
  function DriverBaseArgv(input: string, output: string, sampleType: string, cond: string, era: string,
                          maxEvents: int): seq<string>
  {
    ["cmsDriver.py", "nano", "--filein", input, "--fileout", "file:" + output,
     "--eventcontent", "NANOAODSIM", "--datatier", "NANOAODSIM", "--step", "NANO", "--nThreads", "1",
     "--" + sampleType, "--conditions", cond, "--era", era, "-n", IntToString(maxEvents), "--no_exec"]
  }

  /** The optional trailing arguments of the driver command, in the order the
      job appends them. */
  function DriverOptionArgv(mask: Option<string>, customise: string, customiseCmds: string): seq<string>
  {
    (if mask.Some? then ["--lumiToProcess", mask.value] else [])
    + (if |customise| > 0 then ["--customise", customise] else [])
    + (if |customiseCmds| > 0 then ["--customise_commands", customiseCmds] else [])
  }

  /** The argument list of an invocation. */
  function Argv(inv: Invocation): seq<string>
  {
    match inv
    case CmsDriver(input, output, sampleType, cond, era, maxEvents, mask, customise, customiseCmds) =>
      DriverBaseArgv(input, output, sampleType, cond, era, maxEvents)
      + DriverOptionArgv(mask, customise, customiseCmds)
    case CmsRun(report, config) => ["cmsRun", "-j", report, config]
    case HaddNano(tool, target, parts) => ["python3", "-u", tool, target] + parts
    case SkimTree(tool, input, output, config, setup, updateOutput) =>
      ["python3", "-u", tool, "--input", input, "--output", output, "--config", config, "--setup", setup,
       "--skip-empty"]
      + (if updateOutput then ["--update-output"] else [])
      + ["--verbose", "1"]
  }

  /** The conversion commands: the driver's 22 fixed arguments plus two per
      option given, and `cmsRun -j report config`. */
  lemma ConversionArgvShape(inv: Invocation)
    ensures inv.CmsDriver? ==>
      var argv := Argv(inv);
      && |argv| == 22 + (if inv.lumiMask.Some? then 2 else 0) + (if |inv.customise| > 0 then 2 else 0)
                      + (if |inv.customiseCmds| > 0 then 2 else 0)
      && argv[0] == "cmsDriver.py" && argv[3] == inv.input && argv[21] == "--no_exec"
    ensures inv.CmsRun? ==>
      var argv := Argv(inv);
      |argv| == 4 && argv[0] == "cmsRun" && argv[2] == inv.report && argv[3] == inv.config
  {
  }

  /** The merge command: the merge target, then the parts in order. */
  lemma HaddArgvShape(inv: Invocation)
    requires inv.HaddNano?
    ensures var argv := Argv(inv);
      |argv| == 4 + |inv.parts| && argv[2] == inv.tool && argv[3] == inv.target && argv[4..] == inv.parts
  {
  }

  /** The skim command: 14 arguments, or 15 with `--update-output` in place
      12 for the fallback pass, each value after its flag. */
  lemma SkimArgvShape(inv: Invocation)
    requires inv.SkimTree?
    ensures var argv := Argv(inv);
      && |argv| == (if inv.updateOutput then 15 else 14)
      && argv[2] == inv.tool && argv[4] == inv.input && argv[6] == inv.output
      && argv[8] == inv.config && argv[10] == inv.setup
      && (argv[12] == "--update-output" <==> inv.updateOutput)
      && argv[|argv| - 2..] == ["--verbose", "1"]
  {
  }

  /** Reads the optional trailing driver arguments back: a mask, a
      customisation function and customisation commands, each present at
      most once and in that order. */
  function ParseDriverOptions(tail: seq<string>): Option<(Option<string>, string, string)>
  {
    var (mask, t1) := if |tail| >= 2 && tail[0] == "--lumiToProcess" then (Some(tail[1]), tail[2..]) else (None, tail);
    var (customise, t2) := if |t1| >= 2 && t1[0] == "--customise" then (t1[1], t1[2..]) else ("", t1);
    var (commands, t3) := if |t2| >= 2 && t2[0] == "--customise_commands" then (t2[1], t2[2..]) else ("", t2);
    if t3 == [] then Some((mask, customise, commands)) else None
  }

  /** Reads a driver invocation back from an argument list. */
  function ParseDriverArgv(argv: seq<string>): Option<Invocation>
  {
    if |argv| < 22 || !StartsWith(argv[5], "file:") || !StartsWith(argv[14], "--") then None
    else
      match ParseInt(argv[20])
      case None => None
      case Some(maxEvents) =>
        match ParseDriverOptions(argv[22..])
        case None => None
        case Some(options) =>
          var output := argv[5][5..];
          var sampleType := argv[14][2..];
          if argv[..22] != DriverBaseArgv(argv[3], output, sampleType, argv[16], argv[18], maxEvents) then None
          else Some(CmsDriver(argv[3], output, sampleType, argv[16], argv[18], maxEvents,
                              options.0, options.1, options.2))
  }

  lemma DriverOptionsRoundTrip(mask: Option<string>, customise: string, customiseCmds: string)
    ensures ParseDriverOptions(DriverOptionArgv(mask, customise, customiseCmds)) == Some((mask, customise, customiseCmds))
  {
    var m := if mask.Some? then ["--lumiToProcess", mask.value] else [];
    var c := if |customise| > 0 then ["--customise", customise] else [];
    var x := if |customiseCmds| > 0 then ["--customise_commands", customiseCmds] else [];
    var tail := m + c + x;
    assert "--customise" != "--lumiToProcess";
    assert "--customise_commands" != "--lumiToProcess";
    assert "--customise_commands" != "--customise";
    if mask.Some? {
      assert tail[2..] == c + x;
    } else {
      assert tail == c + x;
    }
    if |customise| > 0 {
      assert (c + x)[2..] == x;
    } else {
      assert c + x == x;
    }
  }

  /** The driver command determines the invocation it was built from: the
      mask appears (after `--lumiToProcess`) exactly when one was given, the
      customisation function and commands exactly when they are non-empty,
      and every other setting sits at its fixed position. */
  lemma DriverArgvRoundTrip(inv: Invocation)
    requires inv.CmsDriver?
    ensures ParseDriverArgv(Argv(inv)) == Some(inv)
  {
    var argv := Argv(inv);
    var base := DriverBaseArgv(inv.input, inv.output, inv.sampleType, inv.cond, inv.era, inv.maxEvents);
    var options := DriverOptionArgv(inv.lumiMask, inv.customise, inv.customiseCmds);
    DriverBaseFields(inv.input, inv.output, inv.sampleType, inv.cond, inv.era, inv.maxEvents);
    DriverOptionsRoundTrip(inv.lumiMask, inv.customise, inv.customiseCmds);
    assert argv == base + options;
    assert argv[..22] == base && argv[22..] == options;
    assert argv[3] == base[3] && argv[5] == base[5] && argv[14] == base[14];
    assert argv[16] == base[16] && argv[18] == base[18] && argv[20] == base[20];
  }

  /** Each setting of the fixed driver arguments can be read back from its
      position. */
  lemma DriverBaseFields(input: string, output: string, sampleType: string, cond: string, era: string,
                         maxEvents: int)
    ensures var base := DriverBaseArgv(input, output, sampleType, cond, era, maxEvents);
      && |base| == 22 && base[3] == input && base[16] == cond && base[18] == era
      && StartsWith(base[5], "file:") && base[5][5..] == output
      && StartsWith(base[14], "--") && base[14][2..] == sampleType
      && ParseInt(base[20]) == Some(maxEvents)
  {
    var base := DriverBaseArgv(input, output, sampleType, cond, era, maxEvents);
    ParseIntToString(maxEvents);
    assert base[5] == "file:" + output;
    assert base[5][..5] == "file:" && base[5][5..] == output;
    assert base[14] == "--" + sampleType;
    assert base[14][..2] == "--" && base[14][2..] == sampleType;
  }

  /** Reads a skim invocation back from an argument list. */
  function ParseSkimArgv(argv: seq<string>): Option<Invocation>
  {
    if && (|argv| == 14 || |argv| == 15)
       && argv[0] == "python3" && argv[1] == "-u" && argv[3] == "--input" && argv[5] == "--output"
       && argv[7] == "--config" && argv[9] == "--setup" && argv[11] == "--skip-empty"
       && (|argv| == 15 ==> argv[12] == "--update-output")
       && argv[|argv| - 2..] == ["--verbose", "1"]
    then Some(SkimTree(argv[2], argv[4], argv[6], argv[8], argv[10], |argv| == 15))
    else None
  }

  /** The skim command determines the skim: `--update-output` is passed exactly
      for the fallback pass, and the input, output, configuration and setup
      sit after their flags. */
  lemma SkimArgvRoundTrip(inv: Invocation)
    requires inv.SkimTree?
    ensures ParseSkimArgv(Argv(inv)) == Some(inv)
  {
    var argv := Argv(inv);
    if inv.updateOutput {
      assert |argv| == 15 && argv[12] == "--update-output";
    } else {
      assert |argv| == 14;
    }
    assert argv[|argv| - 2..] == ["--verbose", "1"];
  }
}
