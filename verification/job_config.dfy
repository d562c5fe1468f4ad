/** The job-configuration checks of the CRAB wrapper: the output descriptor
    lines, the era and conditions selection, and the event cap. Reading the
    skim configuration YAML is an oracle that reports whether the path is a
    regular file and, if so, the top-level keys of its document. */
module JobConfig {
  import opened Wrappers
  import opened Text

  /** One declared output: the file produced by the job, where it is staged
      to, and an optional skim (configuration file, setup, fallback setup).
      An empty string means "not given", as in the job's own dictionaries. */
  datatype OutputDescriptor = OutputDescriptor(
    file: string,
    pfn: string,
    skimCfg: string,
    skimSetup: string,
    skimSetupFailed: string)

  /** The `RuntimeError`s (and the `KeyError` of a conditions lookup) raised
      while the wrapper reads its options. */
  datatype ConfigError =
    | InvalidOutputFormat(fields: seq<string>)
    | EmptyOutputFileName
    | SkimSetupNotSpecified(skimCfg: string)
    | SetupNotFound(setup: string, skimCfg: string)
    | SetupWithoutSkimConfig
    | UnknownEra(era: string)
    | UnknownSampleType(sampleType: string)
    | MissingConditions(era: string)

  /** `None` when the path is not a regular file; otherwise the keys of the
      YAML document stored there. */
  type SkimConfigReader = string -> Option<set<string>>

  /** The five fields of a descriptor, in line order. */
  function Fields(d: OutputDescriptor): seq<string>
  {
    [d.file, d.pfn, d.skimCfg, d.skimSetup, d.skimSetupFailed]
  }

  predicate FieldCountAllowed(n: nat)
  {
    n == 1 || n == 2 || n == 4 || n == 5
  }

  /** Splits an output line on `;`, rejects field counts other than 1, 2, 4
      and 5, and pads the fields with empty strings up to five. */
  function SplitOutputLine(line: string): (r: Result<OutputDescriptor, ConfigError>)
    ensures var fields := Split(line, ';');
      && (r.Success? <==> FieldCountAllowed(|fields|))
      && (!FieldCountAllowed(|fields|) ==> r == Failure(InvalidOutputFormat(fields)))
      && (r.Success? ==>
            && Fields(r.value)[..|fields|] == fields
            && forall k :: |fields| <= k < 5 ==> Fields(r.value)[k] == "")
  {
    var fields := Split(line, ';');
    if !FieldCountAllowed(|fields|) then Failure(InvalidOutputFormat(fields))
    else
      var padded := fields + seq(5 - |fields|, _ => "");
      Success(OutputDescriptor(padded[0], padded[1], padded[2], padded[3], padded[4]))
  }

  /** The checks of one padded descriptor, as the wrapper performs them. The
      fallback-setup test repeats the primary-setup test, so it can never
      fail once the primary test has passed. */
  function CheckDescriptor(d: OutputDescriptor, reader: SkimConfigReader): (r: Result<OutputDescriptor, ConfigError>)
    ensures r.Success? <==> Accepted(d, reader)
    ensures r.Success? ==> r.value == d
    ensures |d.file| == 0 ==> r == Failure(EmptyOutputFileName)
    ensures |d.file| > 0 && |d.skimCfg| > 0 && |d.skimSetup| == 0 ==> r == Failure(SkimSetupNotSpecified(d.skimCfg))
    ensures (|d.file| > 0 && |d.skimCfg| > 0 && |d.skimSetup| > 0 && reader(d.skimCfg).Some?
             && d.skimSetup !in reader(d.skimCfg).value) ==> r == Failure(SetupNotFound(d.skimSetup, d.skimCfg))
    ensures |d.file| > 0 && |d.skimCfg| == 0 && (|d.skimSetup| > 0 || |d.skimSetupFailed| > 0) ==>
            r == Failure(SetupWithoutSkimConfig)
  {
    if |d.file| == 0 then Failure(EmptyOutputFileName)
    else if |d.skimCfg| > 0 then
      if |d.skimSetup| == 0 then Failure(SkimSetupNotSpecified(d.skimCfg))
      else match reader(d.skimCfg)
        case None => Success(d)
        case Some(keys) =>
          if d.skimSetup !in keys then Failure(SetupNotFound(d.skimSetup, d.skimCfg))
          else if |d.skimSetupFailed| > 0 && d.skimSetup !in keys then
            Failure(SetupNotFound(d.skimSetupFailed, d.skimCfg))
          else Success(d)
    else if |d.skimSetup| > 0 || |d.skimSetupFailed| > 0 then Failure(SetupWithoutSkimConfig)
    else Success(d)
  }

  /** The pairing rules a descriptor must satisfy, stated declaratively: a
      file name; a skim configuration comes with a setup, which must be a key
      of the configuration whenever the configuration is a readable file; no
      setups without a configuration. Nothing is required of the fallback
      setup beyond the configuration being given. */
  predicate Accepted(d: OutputDescriptor, reader: SkimConfigReader)
  {
    && |d.file| > 0
    && (|d.skimCfg| > 0 ==>
          && |d.skimSetup| > 0
          && (reader(d.skimCfg).Some? ==> d.skimSetup in reader(d.skimCfg).value))
    && (|d.skimCfg| == 0 ==> |d.skimSetup| == 0 && |d.skimSetupFailed| == 0)
  }

  /** Validates one `--output` option value. */
  function ParseOutputLine(line: string, reader: SkimConfigReader): (r: Result<OutputDescriptor, ConfigError>)
    ensures var fields := Split(line, ';');
      && (r.Success? <==> FieldCountAllowed(|fields|) && Accepted(SplitOutputLine(line).value, reader))
      && (!FieldCountAllowed(|fields|) ==> r == Failure(InvalidOutputFormat(fields)))
      && (FieldCountAllowed(|fields|) && fields[0] == "" ==> r == Failure(EmptyOutputFileName))
      && (r.Success? ==> r.value == SplitOutputLine(line).value)
    ensures SplitOutputLine(line).Success? ==>
      var d := SplitOutputLine(line).value;
      && (|d.file| > 0 && |d.skimCfg| > 0 && |d.skimSetup| == 0 ==>
            r == Failure(SkimSetupNotSpecified(d.skimCfg)))
      && (|d.file| > 0 && |d.skimCfg| > 0 && |d.skimSetup| > 0 && reader(d.skimCfg).Some?
            && d.skimSetup !in reader(d.skimCfg).value ==>
            r == Failure(SetupNotFound(d.skimSetup, d.skimCfg)))
      && (|d.file| > 0 && |d.skimCfg| == 0 && (|d.skimSetup| > 0 || |d.skimSetupFailed| > 0) ==>
            r == Failure(SetupWithoutSkimConfig))
  {
    var d :- SplitOutputLine(line);
    CheckDescriptor(d, reader)
  }

  /** The pairing rules together with the test the fallback check's error
      message describes: a fallback setup, when given and the configuration
      is readable, is a key of the configuration. */
  predicate AcceptedIntended(d: OutputDescriptor, reader: SkimConfigReader)
  {
    && Accepted(d, reader)
    && (|d.skimSetupFailed| > 0 && reader(d.skimCfg).Some? ==> d.skimSetupFailed in reader(d.skimCfg).value)
  }

  /** The checks of one padded descriptor with the fallback setup tested
      against the configuration keys. */
  function CheckDescriptorIntended(d: OutputDescriptor, reader: SkimConfigReader): (r: Result<OutputDescriptor, ConfigError>)
    ensures r.Success? <==> AcceptedIntended(d, reader)
    ensures r.Success? ==> r.value == d
    ensures Accepted(d, reader) && !AcceptedIntended(d, reader) ==>
      r == Failure(SetupNotFound(d.skimSetupFailed, d.skimCfg))
  {
    if |d.file| == 0 then Failure(EmptyOutputFileName)
    else if |d.skimCfg| > 0 then
      if |d.skimSetup| == 0 then Failure(SkimSetupNotSpecified(d.skimCfg))
      else match reader(d.skimCfg)
        case None => Success(d)
        case Some(keys) =>
          if d.skimSetup !in keys then Failure(SetupNotFound(d.skimSetup, d.skimCfg))
          else if |d.skimSetupFailed| > 0 && d.skimSetupFailed !in keys then
            Failure(SetupNotFound(d.skimSetupFailed, d.skimCfg))
          else Success(d)
    else if |d.skimSetup| > 0 || |d.skimSetupFailed| > 0 then Failure(SetupWithoutSkimConfig)
    else Success(d)
  }

  /** Validates one `--output` option value, with the fallback setup checked
      as well. */
  function ParseOutputLineIntended(line: string, reader: SkimConfigReader): (r: Result<OutputDescriptor, ConfigError>)
    ensures var fields := Split(line, ';');
      && (r.Success? <==> FieldCountAllowed(|fields|) && AcceptedIntended(SplitOutputLine(line).value, reader))
      && (!FieldCountAllowed(|fields|) ==> r == Failure(InvalidOutputFormat(fields)))
      && (r.Success? ==> r.value == SplitOutputLine(line).value)
  {
    var d :- SplitOutputLine(line);
    CheckDescriptorIntended(d, reader)
  }

  /** The corrected check differs from the wrapper's only on lines whose
      fallback setup is missing from a readable configuration: it agrees on
      every line it accepts and on every line the wrapper rejects. */
  lemma CorrectedCheckDiffers(line: string, reader: SkimConfigReader)
    ensures ParseOutputLineIntended(line, reader).Success? ==>
      ParseOutputLine(line, reader) == ParseOutputLineIntended(line, reader)
    ensures ParseOutputLine(line, reader).Failure? ==>
      ParseOutputLineIntended(line, reader) == ParseOutputLine(line, reader)
    ensures ParseOutputLine(line, reader).Success? && ParseOutputLineIntended(line, reader).Failure? ==>
      var d := ParseOutputLine(line, reader).value;
      && |d.skimSetupFailed| > 0 && reader(d.skimCfg).Some?
      && d.skimSetupFailed !in reader(d.skimCfg).value
      && ParseOutputLineIntended(line, reader) == Failure(SetupNotFound(d.skimSetupFailed, d.skimCfg))
  {
  }

  /** The text of an output line declaring all five fields. */
  function FormatOutputLine(d: OutputDescriptor): string
  {
    Join(Fields(d), ';')
  }

  predicate FieldsSeparatorFree(d: OutputDescriptor)
  {
    forall k :: 0 <= k < 5 ==> ';' !in Fields(d)[k]
  }

  /** A five-field line built from a descriptor whose fields contain no `;`
      splits back into that descriptor. */
  lemma SplitFormatRoundTrip(d: OutputDescriptor)
    requires FieldsSeparatorFree(d)
    ensures SplitOutputLine(FormatOutputLine(d)) == Success(d)
  {
    SplitJoin(Fields(d), ';');
    var fields := Split(FormatOutputLine(d), ';');
    assert fields == Fields(d);
  }

  /** Every line the wrapper accepts is, after padding, the five-field line
      of the descriptor it yields. */
  lemma ParseFormatRoundTrip(line: string, reader: SkimConfigReader)
    requires ParseOutputLine(line, reader).Success?
    ensures var d := ParseOutputLine(line, reader).value;
      FieldsSeparatorFree(d) && SplitOutputLine(FormatOutputLine(d)) == Success(d)
  {
    var d := ParseOutputLine(line, reader).value;
    var fields := Split(line, ';');
    forall k | 0 <= k < 5 ensures ';' !in Fields(d)[k] {
      if k < |fields| {
        assert Fields(d)[k] == Fields(d)[..|fields|][k];
      }
    }
    SplitFormatRoundTrip(d);
  }

  /** The fallback setup is never compared with the configuration keys: an
      accepted descriptor stays accepted whatever fallback it names. */
  lemma FallbackSetupNeverChecked(d: OutputDescriptor, reader: SkimConfigReader, fallback: string)
    requires FieldsSeparatorFree(d) && ';' !in fallback
    requires ParseOutputLine(FormatOutputLine(d), reader).Success?
    requires |d.skimCfg| > 0
    ensures ParseOutputLine(FormatOutputLine(d.(skimSetupFailed := fallback)), reader)
      == Success(d.(skimSetupFailed := fallback))
  {
    SplitFormatRoundTrip(d);
    var d' := d.(skimSetupFailed := fallback);
    SplitFormatRoundTrip(d');
  }

  /** A concrete line the wrapper accepts although its fallback setup is not a
      key of the skim configuration it names. */
  lemma UnknownFallbackAccepted()
    ensures var d := OutputDescriptor("nano.root", "", "skim.yaml", "A", "B");
      var reader: SkimConfigReader := _ => Some({"A"});
      && ParseOutputLine(FormatOutputLine(d), reader) == Success(d)
      && d.skimSetupFailed !in reader(d.skimCfg).value
      && ParseOutputLineIntended(FormatOutputLine(d), reader).Failure?
  {
    var d := OutputDescriptor("nano.root", "", "skim.yaml", "A", "B");
    ExampleLineSplits();
    assert d.skimSetupFailed !in {"A"};
  }

  /** The example line of `UnknownFallbackAccepted` splits back into its
      descriptor. */
  lemma ExampleLineSplits()
    ensures var d := OutputDescriptor("nano.root", "", "skim.yaml", "A", "B");
      SplitOutputLine(FormatOutputLine(d)) == Success(d)
  {
    var d := OutputDescriptor("nano.root", "", "skim.yaml", "A", "B");
    assert FieldsSeparatorFree(d) by {
      forall k | 0 <= k < 5 ensures ';' !in Fields(d)[k] {
        assert forall c :: c in "nano.root" ==> c != ';';
        assert forall c :: c in "skim.yaml" ==> c != ';';
      }
    }
    SplitFormatRoundTrip(d);
  }

  /** The wrapper's loop over all `--output` values: every line is checked in
      order and the first failure stops the job. */
  function ValidateOutputs(lines: seq<string>, reader: SkimConfigReader): (r: Result<seq<OutputDescriptor>, ConfigError>)
    ensures r.Success? <==> forall i :: 0 <= i < |lines| ==> ParseOutputLine(lines[i], reader).Success?
    ensures r.Success? ==>
      && |r.value| == |lines|
      && (forall i :: 0 <= i < |lines| ==> ParseOutputLine(lines[i], reader) == Success(r.value[i]))
    ensures r.Failure? ==>
      exists i :: && 0 <= i < |lines|
                  && ParseOutputLine(lines[i], reader) == Failure(r.error)
                  && (forall j :: 0 <= j < i ==> ParseOutputLine(lines[j], reader).Success?)
    decreases |lines|
  {
    if |lines| == 0 then Success([])
    else
      var d :- ParseOutputLine(lines[0], reader);
      var rest :- ValidateOutputs(lines[1..], reader);
      Success([d] + rest)
  }

  /** The same loop with the fallback setup checked as well. */
  function ValidateOutputsIntended(lines: seq<string>, reader: SkimConfigReader): (r: Result<seq<OutputDescriptor>, ConfigError>)
    ensures r.Success? <==> forall i :: 0 <= i < |lines| ==> ParseOutputLineIntended(lines[i], reader).Success?
    ensures r.Success? ==>
      && |r.value| == |lines|
      && (forall i :: 0 <= i < |lines| ==> ParseOutputLineIntended(lines[i], reader) == Success(r.value[i]))
    ensures r.Failure? ==>
      exists i :: && 0 <= i < |lines|
                  && ParseOutputLineIntended(lines[i], reader) == Failure(r.error)
                  && (forall j :: 0 <= j < i ==> ParseOutputLineIntended(lines[j], reader).Success?)
    decreases |lines|
  {
    if |lines| == 0 then Success([])
    else
      var d :- ParseOutputLineIntended(lines[0], reader);
      var rest :- ValidateOutputsIntended(lines[1..], reader);
      Success([d] + rest)
  }

  /** Conditions tag for simulated samples, per era. */
  const McConditions: map<string, string> := map[
    "Run2_2016_HIPM" := "auto:run2_mc_pre_vfp",
    "Run2_2016" := "auto:run2_mc",
    "Run2_2017" := "auto:phase1_2017_realistic",
    "Run2_2018" := "auto:phase1_2018_realistic",
    "Run3_2022" := "auto:phase1_2022_realistic",
    "Run3_2022EE" := "auto:phase1_2022_realistic_postEE",
    "Run3_2023" := "auto:phase1_2023_realistic",
    "Run3_2023BPix" := "auto:phase1_2023_realistic_postBPix"
  ]

  /** Conditions tag for Run 3 data, per era. */
  const Run3DataConditions: map<string, string> := map[
    "Run3_2022" := "auto:run3_data",
    "Run3_2023" := "auto:run3_data"
  ]

  /** The era string and conditions tag handed to the conversion. */
  datatype Conditions = Conditions(era: string, cond: string)

  /** Chooses the era string and the conditions tag from the era name and the
      sample type. The era prefix is examined first; for Run 3 data the
      conditions lookup happens before the sample type is checked. */
  function SelectConditions(era: string, sampleType: string): (r: Result<Conditions, ConfigError>)
    ensures !StartsWith(era, "Run2") && !StartsWith(era, "Run3") ==> r == Failure(UnknownEra(era))
    ensures r.Success? <==>
      || (StartsWith(era, "Run2") && (sampleType == "data"
            || (sampleType == "mc" && era in {"Run2_2016_HIPM", "Run2_2016", "Run2_2017", "Run2_2018"})))
      || (StartsWith(era, "Run3") && era in {"Run3_2022", "Run3_2023"} && sampleType == "data")
      || (StartsWith(era, "Run3") && sampleType == "mc"
            && era in {"Run3_2022", "Run3_2022EE", "Run3_2023", "Run3_2023BPix"})
    ensures (StartsWith(era, "Run2") || StartsWith(era, "Run3")) && sampleType != "data" && sampleType != "mc"
      ==> r == Failure(UnknownSampleType(sampleType))
    ensures r.Success? && StartsWith(era, "Run2") ==> r.value.era == era + ",run2_nanoAOD_106Xv2"
    ensures r.Success? && StartsWith(era, "Run3") ==> r.value.era == "Run3,run3_nanoAOD_124"
    ensures r.Success? && sampleType == "data" ==>
      r.value.cond == (if StartsWith(era, "Run2") then "auto:run2_data" else "auto:run3_data")
    ensures r.Success? && sampleType == "mc" ==> era in McConditions && r.value.cond == McConditions[era]
  {
    if StartsWith(era, "Run2") then
      var eraString := era + ",run2_nanoAOD_106Xv2";
      if sampleType == "data" then Success(Conditions(eraString, "auto:run2_data"))
      else if sampleType == "mc" then
        if era in McConditions then Success(Conditions(eraString, McConditions[era]))
        else Failure(MissingConditions(era))
      else Failure(UnknownSampleType(sampleType))
    else if StartsWith(era, "Run3") then
      var eraString := "Run3,run3_nanoAOD_124";
      if sampleType == "data" then
        if era in Run3DataConditions then Success(Conditions(eraString, Run3DataConditions[era]))
        else Failure(MissingConditions(era))
      else if sampleType == "mc" then
        if era in McConditions then Success(Conditions(eraString, McConditions[era]))
        else Failure(MissingConditions(era))
      else Failure(UnknownSampleType(sampleType))
    else Failure(UnknownEra(era))
  }

  /** The conversion's event cap: `-1` (no cap) unless a positive number of
      events was requested. */
  function MaxEventsInput(requested: int): (r: int)
    ensures r > 0 <==> requested > 0
    ensures r > 0 ==> r == requested
    ensures r <= 0 ==> r == -1
  {
    if requested > 0 then requested else -1
  }

  /** The parameters the wrapper hands on to the job: the conversion settings
      and the output lines, which are passed through unchanged. */
  datatype WrapperParams = WrapperParams(
    sampleType: string,
    era: string,
    cond: string,
    customise: string,
    customiseCmds: string,
    maxEvents: int,
    outputs: seq<string>)

  /** The wrapper as a whole: era and conditions first, then the output lines;
      the first error stops the job. */
  function Configure(sampleType: string, era: string, maxEvents: int, customise: string,
                     customiseCmds: string, outputs: seq<string>, reader: SkimConfigReader)
    : (r: Result<WrapperParams, ConfigError>)
    ensures SelectConditions(era, sampleType).Failure? ==> r == Failure(SelectConditions(era, sampleType).error)
    ensures r.Success? <==> SelectConditions(era, sampleType).Success? && ValidateOutputs(outputs, reader).Success?
    ensures r.Success? ==>
      && r.value.era == SelectConditions(era, sampleType).value.era
      && r.value.cond == SelectConditions(era, sampleType).value.cond
      && r.value.outputs == outputs
      && (r.value.maxEvents == -1 || r.value.maxEvents > 0)
      && r.value.maxEvents == MaxEventsInput(maxEvents)
      && r.value.sampleType == sampleType
      && r.value.customise == customise
      && r.value.customiseCmds == customiseCmds
    ensures SelectConditions(era, sampleType).Success? && ValidateOutputs(outputs, reader).Failure? ==>
      r == Failure(ValidateOutputs(outputs, reader).error)
  {
    var c :- SelectConditions(era, sampleType);
    var _ :- ValidateOutputs(outputs, reader);
    Success(WrapperParams(sampleType, c.era, c.cond, customise, customiseCmds, MaxEventsInput(maxEvents), outputs))
  }

  /** The wrapper as a whole runs with the line of `UnknownFallbackAccepted`,
      while the corrected loop rejects it. */
  lemma UnknownFallbackConfigured()
    ensures var line := FormatOutputLine(OutputDescriptor("nano.root", "", "skim.yaml", "A", "B"));
      var reader: SkimConfigReader := _ => Some({"A"});
      && Configure("data", "Run2_2018", -1, "", "", [line], reader).Success?
      && ValidateOutputsIntended([line], reader).Failure?
  {
    assert "Run2_2018"[..4] == "Run2";
    Run2DataConditions("Run2_2018");
    var line := FormatOutputLine(OutputDescriptor("nano.root", "", "skim.yaml", "A", "B"));
    var reader: SkimConfigReader := _ => Some({"A"});
    UnknownFallbackAccepted();
    SingleLineValidates(line, reader);
  }

  /** Every Run 2 era has conditions for data. */
  lemma Run2DataConditions(era: string)
    requires StartsWith(era, "Run2")
    ensures SelectConditions(era, "data") == Success(Conditions(era + ",run2_nanoAOD_106Xv2", "auto:run2_data"))
  { }

  /** A single `--output` value passes each loop exactly when its line passes
      the check that loop applies. */
  lemma SingleLineValidates(line: string, reader: SkimConfigReader)
    ensures ValidateOutputs([line], reader).Success? <==> ParseOutputLine(line, reader).Success?
    ensures ValidateOutputsIntended([line], reader).Success? <==> ParseOutputLineIntended(line, reader).Success?
  {
    assert [line][0] == line;
  }
}
