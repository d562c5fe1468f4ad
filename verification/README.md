# CrabControl NANOAOD production job, modelled in Dafny

This project models the decision logic of the CRAB NANOAOD production job.
Three pieces are covered:

- **The wrapper's option checks** (`nanoProdWrapper.py`). Each `--output` value is a
  `;`-separated descriptor: file, staging PFN, skim configuration, skim setup and
  fallback skim setup. The wrapper splits it, pads it and validates it. It also maps
  an era and a sample type to the era string and the conditions tag of the
  conversion, and caps the number of events.
- **The job itself** (`crabJob_nanoProd.py`). From the (run, luminosity block) pairs
  of the input file it:
  - groups the blocks by run and writes one lumi mask per run;
  - converts the file to NANOAOD with `cmsDriver.py` and `cmsRun`, either once or
    once per run followed by a `haddnano.py` merge;
  - produces every declared output by a skim (`skim_tree.py`) or a plain copy;
  - extends the caller's list of temporary files.
  The job is a pure function returning a `Plan`. The plan lists the steps in
  execution order: file removals, mask writes, directory creation, file copies and
  program invocations. `CommandLines` renders each invocation as its exact argument
  list.
- **The DAS listing** (`getFileRunLumi.py`). It parses `dasgoclient` output lines
  and folds the per-run answers into a `file -> str(run) -> lumis` map.

Everything the programs would observe is passed in as a parameter:
- the lumis read from the ROOT file;
- whether a path exists;
- `CMSSW_BASE` and the job directory;
- the keys of a skim YAML document;
- the `dasgoclient` answers;
- `json.loads`.

Module layout:

| file | module | models |
|---|---|---|
| `wrappers.dfy` | `Wrappers` | `Option` and `Result`, the exceptions of the scripts |
| `text.dfy` | `Text` | Python `str.split`, `str.strip`, `str(int)`, `int(str)`, `startswith`, POSIX `os.path.join` |
| `sorting.dfy` | `Sorting` | `sorted()` on integers; the ascending distinct runs |
| `job_config.dfy` | `JobConfig` | `nanoProdWrapper.py` |
| `job_plan.dfy` | `JobPlan`, `JobPlanProperties` | `crabJob_nanoProd.py` |
| `command_lines.dfy` | `CommandLines` | the argument lists of `crabJob_nanoProd.py` |
| `das_query.dfy` | `DasQuery` | `getFileRunLumi.py` |

The model follows the code where the code and its documentation differ:
- The fallback skim runs whenever a fallback setup is declared, not only after an
  empty primary skim.
- The wrapper never checks the fallback setup against the skim configuration. The model
  states this, keeps it for the wrapper as a whole, and proves the corrected check
  beside it (see Findings).
- In debug mode with the driver step switched off, the driver command list is used
  without ever being built. Python raises `UnboundLocalError` at line 70 or line 74
  of `crabJob_nanoProd.py`. The model makes this the error `UnboundDriverCommand`.

## Model

| member | source | states |
|---|---|---|
| Text.JoinSplit | nanoProdWrapper.py:93 | Joining the fields of `s.split(';')` with `;` gives back `s`, so splitting loses nothing |
| Text.SplitJoin | nanoProdWrapper.py:93 | Splitting a `;`-join of separator-free fields gives back exactly those fields |
| Text.StripSpec | getFileRunLumi.py:17 | `strip()` keeps one contiguous piece that neither starts nor ends with whitespace and removes only whitespace; a line strips to nothing exactly when it is all whitespace |
| Text.StripIdempotent | getFileRunLumi.py:17 | Stripping an already stripped line changes nothing |
| Text.ParseIntToString | getFileRunLumi.py:25 | `int(str(i)) == i` for every integer `i` |
| Text.IntToStringInjective | crabJob_nanoProd.py:34 | Distinct run numbers have distinct decimal renderings |
| Sorting.Sort | getFileRunLumi.py:34 | `sorted()` returns an ascending permutation of its input (same multiset) |
| Sorting.SortDistinct | crabJob_nanoProd.py:101 | The distinct values, strictly ascending, with the same set of elements |
| Sorting.StrictlyAscendingCard | crabJob_nanoProd.py:96 | A strictly ascending run list is exactly as long as the set of runs |
| JobConfig.SplitOutputLine | nanoProdWrapper.py:93-98 | Accepted iff the `;` split has 1, 2, 4 or 5 fields, else `InvalidOutputFormat` with the fields; the descriptor holds the fields in order, padded with empty strings to five |
| JobConfig.ParseOutputLine | nanoProdWrapper.py:92-113 | Success iff the field count is allowed and the padded descriptor obeys the pairing rules. The named error is given for a bad count, an empty file name, a configuration without a setup, a setup missing from a readable configuration, and setups without a configuration. On success it returns the padded descriptor |
| JobConfig.SplitFormatRoundTrip | nanoProdWrapper.py:93-98 | A five-field line built from `;`-free fields splits back into the same descriptor |
| JobConfig.ParseFormatRoundTrip | nanoProdWrapper.py:93-98 | Every accepted line is, after padding, the five-field rendering of the descriptor it yields |
| JobConfig.CheckDescriptor | nanoProdWrapper.py:99-113 | The checks of one padded descriptor as written: accepted iff it obeys the pairing rules, with the fallback setup never tested against the configuration; an accepted descriptor is returned unchanged. The named error is given for an empty file name, a configuration without a setup, a setup missing from a readable configuration, and setups without a configuration |
| JobConfig.FallbackSetupNeverChecked | nanoProdWrapper.py:107-110 | With a skim configuration given, replacing the fallback setup of an accepted descriptor by any `;`-free name keeps it accepted |
| JobConfig.UnknownFallbackAccepted | nanoProdWrapper.py:109-110 | The line `nano.root;;skim.yaml;A;B` is accepted when the configuration's keys are `{A}`, although `B` is not a key; the corrected check rejects it |
| JobConfig.CheckDescriptorIntended | nanoProdWrapper.py:99-113 | Accepts exactly the descriptors that obey the pairing rules and whose fallback setup, when given and the configuration is readable, is a key of it; a descriptor failing only the fallback test gets `SetupNotFound` naming the fallback |
| JobConfig.ParseOutputLineIntended | nanoProdWrapper.py:92-113 | Success iff the field count is allowed and the padded descriptor passes the corrected checks; a bad count is `InvalidOutputFormat`; on success the padded descriptor |
| JobConfig.UnknownFallbackConfigured | nanoProdWrapper.py:62-120 | The wrapper as a whole runs with `nano.root;;skim.yaml;A;B` (keys `{A}`, Run2_2018 data), while the corrected loop rejects that line |
| JobConfig.CorrectedCheckDiffers | nanoProdWrapper.py:107-110 | The corrected check agrees with the wrapper's on every line it accepts and every line the wrapper rejects; it rejects a line the wrapper accepts only when the fallback setup is missing from a readable configuration |
| JobConfig.ValidateOutputs | nanoProdWrapper.py:92-113 | The wrapper's loop, with the check as written: all lines accepted iff each is; on success one descriptor per line, in order; on failure the error of the first failing line |
| JobConfig.ValidateOutputsIntended | nanoProdWrapper.py:92-113 | The same loop over the corrected check: all lines accepted iff each is; one descriptor per line, in order; the first failing line's error |
| JobConfig.SelectConditions | nanoProdWrapper.py:51-83 | The era prefix is checked first (`UnknownEra` otherwise), then the sample type (`UnknownSampleType`). Exactly which (era, type) pairs succeed. The era string is `era + ',run2_nanoAOD_106Xv2'` for Run2 and `Run3,run3_nanoAOD_124` for Run3. Data uses `auto:run2_data` or `auto:run3_data`; MC uses the per-era table |
| JobConfig.Run2DataConditions | nanoProdWrapper.py:62-79 | Every era starting with `Run2` is accepted for data, whatever follows the prefix, with era string `era + ',run2_nanoAOD_106Xv2'` and conditions `auto:run2_data` |
| JobConfig.MaxEventsInput | nanoProdWrapper.py:88-90 | The event cap is the requested number when positive and -1 otherwise |
| JobConfig.Configure | nanoProdWrapper.py:62-120 | Conditions errors come before output errors, and an output error is the one `ValidateOutputs` reports for the first failing line. Success iff both pass, with the output lines checked as the wrapper does. The handed-on era string and conditions are the selected ones (line 117); the event cap is `MaxEventsInput` of the request; the sample type, customisation, customisation commands and output lines pass through unchanged |
| JobPlan.LumisOfMembership | crabJob_nanoProd.py:19-25 | A block is listed under a run iff that (run, block) pair was read; a run has blocks iff it was seen |
| JobPlan.GetLumiList | crabJob_nanoProd.py:15-26 | The keys are exactly the runs read, and each run maps to its blocks in read order |
| JobPlan.AscendingRuns | crabJob_nanoProd.py:31 | The runs of the file, each once, strictly ascending |
| JobPlan.MaskNameInjective | crabJob_nanoProd.py:34 | `{output}_{run}.json` names differ for different runs |
| JobPlan.CreateLumiMasksPerRun | crabJob_nanoProd.py:28-37 | Exactly one mask write per distinct run, in ascending run order. Each write goes to `{output}_{run}.json` and holds that run's blocks |
| JobPlan.RunsCmsDriver | crabJob_nanoProd.py:78-82 | The driver step is skipped iff the first argument is `DEBUG` and a second argument other than `True` is given |
| JobPlan.ResolveCustomisation | crabJob_nanoProd.py:52-66 | Fails iff a non-empty customisation does not split on `.` into two parts. The copy (make the directory, then copy) happens iff the module path has three `/` segments, the target is absent and the file beside the job exists; nothing happens otherwise |
| JobPlan.ResolveCustomisationIdempotent | crabJob_nanoProd.py:61-65 | Once the module has been copied, a second conversion copies nothing |
| JobPlan.RunCmssw | crabJob_nanoProd.py:39-75 | Fails iff the driver step is off (`UnboundDriverCommand`) or the customisation name is bad. Otherwise its steps are exactly the customisation's preparation (make the directory and copy, when needed), then the driver call, then `cmsRun -j report cfg`, and the created paths are those of the preparation |
| JobPlan.RunCmsswCopies | crabJob_nanoProd.py:55-75 | One conversion copies the customisation module iff it is missing, as its second step after making the directory, and afterwards it is no longer missing |
| JobPlan.ConvertCopies | crabJob_nanoProd.py:96-111 | The whole conversion phase, per run or not, copies the module iff it was missing at the start, as its second step, and nowhere else |
| JobPlan.RunCmsswCalls | crabJob_nanoProd.py:72-75 | The programs of one conversion are exactly the driver, then `cmsRun` |
| JobPlan.PerRunConversions | crabJob_nanoProd.py:99-106 | For each run in order: the driver with the run's mask writing `cmsRun_out_{run}.root`, then `cmsRun` |
| JobPlan.SkimOutput | crabJob_nanoProd.py:113-126 | With a configuration: a primary skim, plus a second skim with the fallback setup and `--update-output` iff a fallback is declared. Without one: a copy of `cmsRun_out.root`. Every step writes the output's file |
| JobPlan.AcceptedOutputSkims | crabJob_nanoProd.py:115-124 | For a line the wrapper as written accepts: every skim names a setup, the primary setup is known to a readable configuration, and an updating skim is always second, after the primary skim of the same file. The fallback setup is known only when the corrected check also accepts the line |
| JobPlan.ConvertAndMerge | crabJob_nanoProd.py:99-111 | With more than one run: per-run conversions, then one `haddnano` merge of the per-run files in run order into `cmsRun_out.root`. Otherwise: one maskless conversion into `cmsRun_out.root` and no merge |
| JobPlan.RequestedRuns | crabJob_nanoProd.py:91-97 | With run-by-run processing requested, the runs are all runs of the file, strictly ascending; otherwise none. There is more than one iff the job is partitioned |
| JobPlan.ProcessFile | crabJob_nanoProd.py:77-126 | No outputs is an error. It fails iff there are no outputs or the conversion fails. A merge happens iff partitioned. There is one skim stage per output, in order. The temporary files are the caller's, then `nano_NANO.py`, then every mask when run-by-run processing is requested, then the per-run outputs when partitioned |
| JobPlanProperties.PartitionedPlan | crabJob_nanoProd.py:99-109 | Partitioned: conversions per run in strictly ascending order over all runs, then exactly one merge |
| JobPlanProperties.UnpartitionedPlan | crabJob_nanoProd.py:110-111 | Not partitioned: exactly one conversion, into `cmsRun_out.root` without a mask, and no merge |
| JobPlanProperties.AddedFiles | crabJob_nanoProd.py:87-103 | The appended temporary files contain every mask, every per-run output when converting per run, and never `cmsRun_out.root` |
| JobPlanProperties.TemporaryFiles | crabJob_nanoProd.py:85-103 | The list only grows. `nano_NANO.py` comes first. Every mask is listed when run-by-run processing is requested, even after collapsing to one conversion. Every per-run output is listed when partitioned. `cmsRun_out.root` is never listed |
| JobPlanProperties.CustomisationCopiedOnce | crabJob_nanoProd.py:55-65 | The job's conversion phase holds a copy iff the customisation module is missing from the CMSSW area and present beside the job; it copies from there into the area, at most once, and before any program runs |
| JobPlanProperties.PlanPhases | crabJob_nanoProd.py:85-126 | Removal and mask writes, conversion steps, the merge, and the skims and copies each lie in their own phase |
| JobPlanProperties.TraceInPhaseOrder | crabJob_nanoProd.py:85-126 | The execution-order reading of `PlanPhases`: in the job's flattened step sequence the removal and mask writes come first, then the conversion, then the merge, then every skim and every copy of the converted file into an output |
| JobPlanProperties.PreparationSteps | crabJob_nanoProd.py:88-95 | A stale `cmsRun_out.root` is removed first; the masks are written iff run-by-run processing is requested |
| JobPlanProperties.SingleRunCollapse | crabJob_nanoProd.py:92-97 | With at most one run, requesting run-by-run processing changes neither the conversion, nor the (absent) merge, nor the skims |
| CommandLines.DriverOptionsRoundTrip | crabJob_nanoProd.py:49-70 | The trailing driver options can be read back: the mask iff one was given, and the customisation and its commands iff non-empty |
| CommandLines.DriverArgvRoundTrip | crabJob_nanoProd.py:42-70 | The full driver argument list (22 fixed arguments, then the options) determines the invocation it was built from |
| CommandLines.SkimArgvRoundTrip | crabJob_nanoProd.py:116-123 | The skim argument list determines the skim; `--update-output` appears iff it is the fallback pass |
| CommandLines.ConversionArgvShape | crabJob_nanoProd.py:42-75 | The driver command has 22 fixed arguments, from `cmsDriver.py` with the input at place 3 to `--no_exec`, plus two per option given; the `cmsRun` command is `cmsRun -j report config` |
| CommandLines.HaddArgvShape | crabJob_nanoProd.py:107-108 | The merge command names the tool and the target, followed by exactly the parts in order |
| CommandLines.SkimArgvShape | crabJob_nanoProd.py:116-123 | The skim command has 14 arguments, or 15 for the fallback pass, whose only extra argument is `--update-output` at place 12; input, output, configuration and setup follow their flags; it ends in `--verbose 1` |
| DasQuery.ParseDasLine | getFileRunLumi.py:16-27 | A non-blank line parsed in `run` mode is a run number, and in `file,run,lumi` mode a file line |
| DasQuery.ParseDasLineCases | getFileRunLumi.py:16-27 | A blank line yields nothing, in every mode. In `file,run,lumi` mode it succeeds iff the stripped line splits on a space into 3 fields whose last two decode; a field count other than 3 is `BadListingLine`. In `run` mode it succeeds iff the stripped line is an integer. Any other mode on a non-blank line is an error |
| DasQuery.ParseLines | getFileRunLumi.py:15-28 | Success iff every line parses; on failure the error of the first failing line |
| DasQuery.ParseLinesSingle | getFileRunLumi.py:16-25 | A single line that parses yields its entry, or nothing when blank |
| DasQuery.ParseLinesAppend | getFileRunLumi.py:15-28 | Parsing two blocks of lines succeeds iff each block does, and yields the first block's entries followed by the second's, so the entries keep the order of the lines |
| DasQuery.ParsedEntries | getFileRunLumi.py:15-28 | The entries are exactly those of the non-blank lines, and there are no more entries than lines |
| DasQuery.EntryKinds | getFileRunLumi.py:13-28 | `getDasInfo` in run mode yields only run numbers, and in listing mode only file entries |
| DasQuery.GetDasInfoOutcome | getFileRunLumi.py:13-28 | `getDasInfo` fails iff some output line of the client fails, with the first such line's error; otherwise it yields exactly the entries of the non-blank lines, at most one per line |
| DasQuery.ListingLineRoundTrip | getFileRunLumi.py:19-23 | `file runs lumis` with whitespace-free words parses back to the file and the two decoded values |
| DasQuery.RunLineRoundTrip | getFileRunLumi.py:24-25 | A line `str(run)` parses back to the run |
| DasQuery.RunQueryRoundTrip | getFileRunLumi.py:32-42 | The per-run query `RunQuery`, `dataset=X status=valid run=R`, starts with the base query and ends in `str(R)`, which reads back as `R`, so distinct runs get distinct queries |
| DasQuery.NestedVerbosity | getFileRunLumi.py:43 | Two below the caller's verbosity from 2 upward, otherwise 0, never negative |
| DasQuery.SortedRunNumbers | getFileRunLumi.py:34 | Sorting the run numbers keeps exactly the runs of the entries |
| DasQuery.RunListSpec | getFileRunLumi.py:34 | The run list is ascending and holds exactly the run numbers of the answer's non-blank lines |
| DasQuery.RunListOutcome | getFileRunLumi.py:34 | The run list fails iff the run query fails, with its error; otherwise it holds one run per entry of the answer, ascending |
| DasQuery.RunWritesMembers | getFileRunLumi.py:44-47 | One run's answer writes `(file, str(run), lumis)` exactly for its file lines; the line's runs field is unused |
| DasQuery.RunWritesAppend | getFileRunLumi.py:44-47 | The writes of two blocks of entries are those of the first block followed by those of the second |
| DasQuery.CollectWritesMembers | getFileRunLumi.py:39-47 | A write is made iff some queried run's answer has a file line for it, under that run's key |
| DasQuery.CollectWritesInOrder | getFileRunLumi.py:39-47 | The per-run queries are issued in run order: the writes of the first `n` runs precede those of the rest, and the earliest failing query gives the listing's error |
| DasQuery.CollectWritesOutcome | getFileRunLumi.py:39-47 | The per-run loop succeeds iff every run's query does, and otherwise fails with the error of the first run whose query fails |
| DasQuery.CollectWritesLast | getFileRunLumi.py:39-47 | Across all per-run queries, the last write under `str(R)` is the last write of R's own answer, and there is none when R was not queried |
| DasQuery.LastWriteSpec | getFileRunLumi.py:47 | Reference for "last assignment wins": `None` iff no write has this (file, key); otherwise the lumis of a write with no later write to the same (file, key) |
| DasQuery.LastWriteAppend | getFileRunLumi.py:47 | The last write to a (file, key) in two blocks of writes is the second block's, unless the second block has none |
| DasQuery.LastLineWins | getFileRunLumi.py:44-47 | Within one run's answer, the run's writes leave a file with the lumis of the last line that names it, and with nothing when no line does |
| DasQuery.ApplyWritesLookup | getFileRunLumi.py:44-47 | After the fold each (file, key) holds the lumis of its last write, or its old value if never written |
| DasQuery.ApplyWritesFiles | getFileRunLumi.py:45-47 | The files of the result are the old ones plus the written ones, and no file has an empty entry |
| DasQuery.CollectedFiles | getFileRunLumi.py:39-47 | For any run list, folding the per-run writes names a file iff some queried run's answer had a line for it, and leaves no file without runs |
| DasQuery.CollectedKeys | getFileRunLumi.py:39-47 | For any run list, a file gets key `k` iff `k == str(R)` for a queried run `R` whose answer named the file |
| DasQuery.FileRunLumiFiles | getFileRunLumi.py:32-48 | A file is in the listing iff some per-run query returned it; every listed file has at least one run |
| DasQuery.FileRunLumiKeys | getFileRunLumi.py:39-48 | A file has key `k` iff `k == str(R)` for a queried run `R` whose answer named the file; the line's own runs field plays no part |
| DasQuery.FileRunLumiLastWins | getFileRunLumi.py:44-48 | Each (file, key) of the listing holds the lumis of the last write to it in the listing's sequence of assignments, and is absent when never assigned |
| DasQuery.FileRunLumiLastLine | getFileRunLumi.py:39-48 | A later line overwrites an earlier one: for a queried run R, a file holds under `str(R)` the lumis of the last line of R's answer that names the file, and nothing when no line does; nothing is held under a run that was not queried |
| DasQuery.FileRunLumiOutcome | getFileRunLumi.py:30-48 | `getFileRunLumi` fails with the run query's error when that fails; otherwise it fails iff some per-run query fails, with the error of the first such run in ascending order |

## Left out

- `law_wlcg.py` is not part of this model. It is a thin wrapper over remote file systems with no logic of its own.
- Running programs, copying, removing and creating files, and writing JSON or `PSet.py`: each becomes a `Step` of the plan, not an effect.
- Reading luminosity blocks from ROOT files: the pairs arrive as `Environment.lumis`. CMSSW's `LumiList` is not part of this model.
- JobPlan.CreateLumiMasksPerRun: the mask writes (`crabJob_nanoProd.py:31`) and the mask entries of `tmp_files` (line 94) follow the key order of `LumiList.getCompactList()`, which the source never sorts and which is not visible here. `CreateLumiMasksPerRun` and `ProcessFile` replace it with ascending numeric run order.
- JobPlan.ConvertAndMerge: the per-run loop sorts the items of the mask map (line 101). The model sorts the runs numerically; if the keys are run numbers as strings, string order differs from numeric order only for runs of different digit counts.
- YAML and JSON decoding are oracles: the YAML reader gives the top-level keys of a regular file; `json.loads` is `Decoder`. A YAML document that is not a mapping is not modelled.
- `os.path.exists`/`isfile` are oracles. Files the job creates itself are tracked in a `created` set, and nothing else about the file system.
- `VarParsing` option registration and `cms.Process` construction are not part of this model. The wrapper's options arrive as arguments of `Configure`.
- `dasgoclient` (`run_dasgoclient`) is an oracle from query and verbosity to output lines. The DBS instance and the timeout are fixed for one listing, so they are folded into it. Client failures are not modelled.
- `int()` accepts only an optional sign and ASCII digits. Underscore separators and non-ASCII digits are not modelled.
- A `Failure` of the job carries only the error, not the partial plan or the temporary files appended before the exception.
- `CMSSW_BASE` missing from the environment (a `KeyError`) is not modelled.
- Logging, `print` and the `sys.path` bootstrap have no counterpart.
- The order of the keys in the dumped JSON listing is not modelled: Dafny maps are unordered.

## Findings

| source | as written | input that shows it | evidently intended | confidence | as-written member | corrected member |
|---|---|---|---|---|---|---|
| nanoProdWrapper.py:109 | The fallback check tests `skim_setup not in skim_config` a second time. Line 107 has already passed, so it can never fire | `nano.root;;skim.yaml;A;B` with `skim.yaml` a file whose keys are `{A}`: accepted, though setup `B` does not exist | Test `skim_setup_failed not in skim_config`, as the error message naming `skim_setup_failed` says | high (not executed) | JobConfig.UnknownFallbackAccepted | JobConfig.ParseOutputLineIntended |

`JobConfig.ParseOutputLine` and `JobConfig.CheckDescriptor` keep the check as written, and so does the wrapper as a whole: `JobConfig.ValidateOutputs` and `JobConfig.Configure` accept the line above, as the running wrapper does, and `JobPlan.AcceptedOutputSkims` is stated for the lines they accept. `JobConfig.FallbackSetupNeverChecked` and `JobConfig.UnknownFallbackAccepted` exhibit the discrepancy. The corrected check is `JobConfig.CheckDescriptorIntended`, `JobConfig.ParseOutputLineIntended` and the loop `JobConfig.ValidateOutputsIntended`; their contracts prove that every fallback setup they accept is a key of a readable configuration. `JobConfig.CorrectedCheckDiffers` shows that the two checks differ only on an unknown fallback setup.
