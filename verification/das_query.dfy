/** The DAS listing of a dataset: which lumi sections of which runs each file
    of the dataset holds. The `dasgoclient` tool is an oracle from a query
    and a verbosity to its output lines, and JSON decoding is an oracle from
    a text to an optional value of some type `J`. */
module DasQuery {
  import opened Wrappers
  import opened Text
  import opened Sorting

  /** The two output formats the listing asks the client for. */
  const RunMode: string := "run"
  const ListingMode: string := "file,run,lumi"

  /** The `dasgoclient` tool: the output lines for a query at a verbosity. */
  type DasClient = (string, int) -> seq<string>

  /** `json.loads`: the decoded value, or `None` when the text is not JSON. */
  type Decoder<J> = string -> Option<J>

  datatype DasError =
    | BadListingLine(line: string)
    | BadRunNumber(line: string)
    | UnknownMode(mode: string)
    | BadJson(text: string)

  /** One parsed output line: a file with its decoded runs and lumis, or a
      run number. */
  datatype DasEntry<J> = FileEntry(file: string, runs: J, lumis: J) | RunEntry(run: int)

  /** A line that `strip()` empties: it holds whitespace only. */
  predicate Blank(line: string)
  {
    forall k :: 0 <= k < |line| ==> IsSpace(line[k])
  }

  /** Parses one output line of the client: a blank line yields nothing;
      otherwise the stripped line is a listing line or a run number,
      according to the mode. */
  function ParseDasLine<J>(mode: string, line: string, decode: Decoder<J>): (r: Result<Option<DasEntry<J>>, DasError>)
    ensures r.Success? && r.value.Some? ==>
      (mode == RunMode ==> r.value.value.RunEntry?) && (mode == ListingMode ==> r.value.value.FileEntry?)
  {
    var desc := Strip(line);
    if |desc| == 0 then Success(None)
    else if mode == ListingMode then
      var parts := Split(desc, ' ');
      if |parts| != 3 then Failure(BadListingLine(desc))
      else if decode(parts[1]).None? then Failure(BadJson(parts[1]))
      else if decode(parts[2]).None? then Failure(BadJson(parts[2]))
      else Success(Some(FileEntry(parts[0], decode(parts[1]).value, decode(parts[2]).value)))
    else if mode == RunMode then
      match ParseInt(desc)
      case None => Failure(BadRunNumber(desc))
      case Some(run) => Success(Some(RunEntry(run)))
    else Failure(UnknownMode(mode))
  }

  /** A blank line yields nothing in every mode; otherwise the stripped line
      must be three space-separated fields whose last two are JSON texts in
      listing mode, or an integer in run mode, and any other mode is an
      error. */
  lemma ParseDasLineCases<J>(mode: string, line: string, decode: Decoder<J>)
    ensures var r := ParseDasLine(mode, line, decode);
      && (r == Success(None) <==> Blank(line))
      && (!Blank(line) && mode != ListingMode && mode != RunMode ==> r == Failure(UnknownMode(mode)))
      && (!Blank(line) && mode == RunMode ==> (r.Success? <==> ParseInt(Strip(line)).Some?))
      && (!Blank(line) && mode == RunMode && r.Success? ==>
            r.value == Some(RunEntry(ParseInt(Strip(line)).value)))
      && (!Blank(line) && mode == ListingMode ==>
            (r.Success? <==> var parts := Split(Strip(line), ' ');
                              |parts| == 3 && decode(parts[1]).Some? && decode(parts[2]).Some?))
      && (!Blank(line) && mode == ListingMode && r.Success? ==>
            var parts := Split(Strip(line), ' ');
            r.value == Some(FileEntry(parts[0], decode(parts[1]).value, decode(parts[2]).value)))
      && (!Blank(line) && mode == ListingMode && |Split(Strip(line), ' ')| != 3 ==>
            r == Failure(BadListingLine(Strip(line))))
  {
    StripSpec(line);
  }

  /** A text that neither starts nor ends with whitespace is left alone by
      `strip()`. */
  lemma StripUnchanged(s: string)
    requires |s| > 0 ==> !IsSpace(s[0]) && !IsSpace(s[|s| - 1])
    ensures Strip(s) == s
  {
    assert TrimLeft(s) == s;
  }

  /** A text without whitespace characters. */
  predicate Word(s: string)
  {
    |s| > 0 && forall k :: 0 <= k < |s| ==> !IsSpace(s[k])
  }

  /** A listing line as the client prints it: file, runs and lumis separated
      by single spaces. */
  function ListingLine(file: string, runs: string, lumis: string): string
  {
    file + " " + runs + " " + lumis
  }

  /** A listing line of three whitespace-free words whose last two decode
      parses back to the file and the two decoded values. */
  lemma ListingLineRoundTrip<J>(file: string, runs: string, lumis: string, decode: Decoder<J>)
    requires Word(file) && Word(runs) && Word(lumis)
    requires decode(runs).Some? && decode(lumis).Some?
    ensures ParseDasLine(ListingMode, ListingLine(file, runs, lumis), decode)
            == Success(Some(FileEntry(file, decode(runs).value, decode(lumis).value)))
  {
    var line := ListingLine(file, runs, lumis);
    assert line[0] == file[0] && line[|line| - 1] == lumis[|lumis| - 1];
    StripUnchanged(line);
    assert !Blank(line);
    assert ' ' !in file && ' ' !in runs && ' ' !in lumis by {
      assert IsSpace(' ');
    }
    assert Join([file, runs, lumis], ' ') == line by {
      assert Join([runs, lumis], ' ') == runs + " " + lumis;
      assert [file, runs, lumis][1..] == [runs, lumis];
      assert [runs, lumis][1..] == [lumis];
    }
    SplitJoin([file, runs, lumis], ' ');
  }

  /** A run line printed as `str(run)` parses back to the run. */
  lemma RunLineRoundTrip<J>(run: int, decode: Decoder<J>)
    ensures ParseDasLine(RunMode, IntToString(run), decode) == Success(Some(RunEntry(run)))
  {
    var line := IntToString(run);
    var digits := NatToString(if run < 0 then -run else run);
    assert line[|line| - 1] == digits[|digits| - 1];
    assert IsDigit(digits[|digits| - 1]);
    StripUnchanged(line);
    assert !Blank(line);
    ParseIntToString(run);
  }

  /** A parser for one output line. */
  type LineParser<J> = string -> Result<Option<DasEntry<J>>, DasError>

  /** The line parser of one mode. */
  function LineParserFor<J>(mode: string, decode: Decoder<J>): LineParser<J>
  {
    line => ParseDasLine(mode, line, decode)
  }

  /** Parses the client's output line by line, in order, keeping the entries
      of the non-blank lines; the first line that fails stops the parse. */
  function ParseLines<J>(parse: LineParser<J>, lines: seq<string>): (r: Result<seq<DasEntry<J>>, DasError>)
    ensures r.Success? <==> forall i :: 0 <= i < |lines| ==> parse(lines[i]).Success?
    ensures r.Failure? ==>
      exists i :: 0 <= i < |lines| && parse(lines[i]) == Failure(r.error)
                  && forall j :: 0 <= j < i ==> parse(lines[j]).Success?
    decreases |lines|
  {
    if |lines| == 0 then Success([])
    else
      match parse(lines[0])
      case Failure(e) => Failure(e)
      case Success(entry) =>
        match ParseLines(parse, lines[1..])
        case Failure(e) => Failure(e)
        case Success(rest) =>
          Success(if entry.Some? then [entry.value] + rest else rest)
  }

  /** The entries of a successful parse are exactly the entries of its
      non-blank lines, and there are no more of them than lines. */
  lemma {:induction false} ParsedEntries<J(!new)>(parse: LineParser<J>, lines: seq<string>)
    requires ParseLines(parse, lines).Success?
    ensures forall e :: e in ParseLines(parse, lines).value <==>
      exists i :: 0 <= i < |lines| && parse(lines[i]) == Success(Some(e))
    ensures |ParseLines(parse, lines).value| <= |lines|
    decreases |lines|
  {
    if |lines| > 0 {
      ParsedEntries(parse, lines[1..]);
      assert forall i :: 0 < i < |lines| ==> lines[i] == lines[1..][i - 1];
    }
  }

  /** Parsing a single line keeps its entry, if it has one. */
  lemma ParseLinesSingle<J>(parse: LineParser<J>, line: string)
    requires parse(line).Success?
    ensures ParseLines(parse, [line])
      == Success(if parse(line).value.Some? then [parse(line).value.value] else [])
  {
    assert [line][0] == line && [line][1..] == [];
    assert ParseLines(parse, [line][1..]) == Success([]);
    var entry := parse(line).value;
    if entry.Some? {
      assert [entry.value] + [] == [entry.value];
    }
  }

  /** Parsing two blocks of lines one after the other gives the entries of
      the first block followed by those of the second, so the entries keep
      the order of the lines. */
  lemma {:induction false} ParseLinesAppend<J>(parse: LineParser<J>, a: seq<string>, b: seq<string>)
    ensures ParseLines(parse, a + b).Success? <==> ParseLines(parse, a).Success? && ParseLines(parse, b).Success?
    ensures ParseLines(parse, a + b).Success? ==>
      ParseLines(parse, a + b).value == ParseLines(parse, a).value + ParseLines(parse, b).value
    decreases |a|
  {
    if |a| == 0 {
      assert a + b == b;
    } else {
      assert (a + b)[0] == a[0] && (a + b)[1..] == a[1..] + b;
      ParseLinesAppend(parse, a[1..], b);
      if ParseLines(parse, a + b).Success? {
        var head := if parse(a[0]).value.Some? then [parse(a[0]).value.value] else [];
        assert head + (ParseLines(parse, a[1..]).value + ParseLines(parse, b).value)
            == (head + ParseLines(parse, a[1..]).value) + ParseLines(parse, b).value;
      }
    }
  }

  /** `getDasInfo`: asks the client for `mode query` and parses its answer. */
  function GetDasInfo<J>(das: DasClient, query: string, mode: string, verbose: int, decode: Decoder<J>)
    : Result<seq<DasEntry<J>>, DasError>
  {
    ParseLines(LineParserFor(mode, decode), das(mode + " " + query, verbose))
  }

  /** In run mode every entry is a run number; in listing mode every entry is
      a file. */
  lemma EntryKinds<J(!new)>(das: DasClient, query: string, mode: string, verbose: int, decode: Decoder<J>)
    requires GetDasInfo(das, query, mode, verbose, decode).Success?
    ensures forall e :: e in GetDasInfo(das, query, mode, verbose, decode).value ==>
      (mode == RunMode ==> e.RunEntry?) && (mode == ListingMode ==> e.FileEntry?)
  {
    ParsedEntries(LineParserFor(mode, decode), das(mode + " " + query, verbose));
  }

  /** `getDasInfo` fails exactly when some output line fails, with the error
      of the first such line; otherwise it yields exactly the entries of the
      non-blank lines, at most one per line. */
  lemma GetDasInfoOutcome<J(!new)>(das: DasClient, query: string, mode: string, verbose: int, decode: Decoder<J>)
    ensures var lines := das(mode + " " + query, verbose);
      var r := GetDasInfo(das, query, mode, verbose, decode);
      && (r.Success? <==> forall i :: 0 <= i < |lines| ==> ParseDasLine(mode, lines[i], decode).Success?)
      && (r.Failure? ==>
            exists i :: && 0 <= i < |lines| && ParseDasLine(mode, lines[i], decode) == Failure(r.error)
                        && forall j :: 0 <= j < i ==> ParseDasLine(mode, lines[j], decode).Success?)
      && (r.Success? ==>
            && |r.value| <= |lines|
            && forall e :: e in r.value <==>
                 exists i :: 0 <= i < |lines| && ParseDasLine(mode, lines[i], decode) == Success(Some(e)))
  {
    var lines := das(mode + " " + query, verbose);
    var parse := LineParserFor(mode, decode);
    assert forall i :: 0 <= i < |lines| ==> parse(lines[i]) == ParseDasLine(mode, lines[i], decode);
    if ParseLines(parse, lines).Success? {
      ParsedEntries(parse, lines);
    }
  }

  function BaseQuery(dataset: string): string
  {
    "dataset=" + dataset
  }

  /** The query for the files of one run of the dataset. */
  function RunQuery(dataset: string, run: int): (q: string)
    ensures StartsWith(q, BaseQuery(dataset))
  {
    BaseQuery(dataset) + " status=valid run=" + IntToString(run)
  }

  /** The run number can be read back from the end of a run query, so
      distinct runs are asked for with distinct queries. */
  lemma RunQueryRoundTrip(dataset: string, run: int)
    ensures var prefix := BaseQuery(dataset) + " status=valid run=";
      StartsWith(RunQuery(dataset, run), prefix) && ParseInt(RunQuery(dataset, run)[|prefix|..]) == Some(run)
  {
    var prefix := BaseQuery(dataset) + " status=valid run=";
    assert RunQuery(dataset, run)[|prefix|..] == IntToString(run);
    ParseIntToString(run);
  }

  /** The verbosity of the per-run queries: two levels below the caller's,
      never negative, and never more than the caller's. */
  function NestedVerbosity(verbose: int): (v: nat)
    ensures verbose >= 2 ==> v + 2 == verbose
    ensures verbose < 2 ==> v == 0
  {
    if verbose >= 2 then verbose - 2 else 0
  }

  /** The run numbers among the entries, in order. */
  function RunNumbers<J>(entries: seq<DasEntry<J>>): (runs: seq<int>)
    ensures |runs| <= |entries|
  {
    if |entries| == 0 then []
    else (if entries[0].RunEntry? then [entries[0].run] else []) + RunNumbers(entries[1..])
  }

  /** When every entry is a run number, none is dropped. */
  lemma {:induction false} RunNumbersOfRuns<J>(entries: seq<DasEntry<J>>)
    requires forall k :: 0 <= k < |entries| ==> entries[k].RunEntry?
    ensures |RunNumbers(entries)| == |entries|
    ensures forall k :: 0 <= k < |entries| ==> RunNumbers(entries)[k] == entries[k].run
    decreases |entries|
  {
    if |entries| > 0 {
      RunNumbersOfRuns(entries[1..]);
    }
  }

  /** The sorted runs of the dataset, from the run-mode query. */
  function RunList<J>(das: DasClient, dataset: string, verbose: int, decode: Decoder<J>)
    : Result<seq<int>, DasError>
  {
    match GetDasInfo(das, BaseQuery(dataset), RunMode, verbose, decode)
    case Failure(e) => Failure(e)
    case Success(entries) => Success(Sort(RunNumbers(entries)))
  }

  /** One assignment `fileRunLumi[file][key] = lumis`. */
  datatype Write<J> = Write(file: string, key: string, lumis: J)

  /** The assignments made for the files one run query returned, in order;
      the key is the queried run and the runs field of the line is unused. */
  function RunWrites<J>(run: int, entries: seq<DasEntry<J>>): (ws: seq<Write<J>>)
    ensures |ws| <= |entries|
  {
    if |entries| == 0 then []
    else
      (if entries[0].FileEntry? then [Write(entries[0].file, IntToString(run), entries[0].lumis)] else [])
      + RunWrites(run, entries[1..])
  }

  /** The entry is a file line for `file` with the lumis `lumis`. */
  ghost predicate Lists<J>(e: DasEntry<J>, file: string, lumis: J)
  {
    e.FileEntry? && e.file == file && e.lumis == lumis
  }

  /** A write is made for run `run` exactly when that run's query returned a
      file line for the write's file with the write's lumis. */
  lemma {:induction false} RunWritesMembers<J(!new)>(run: int, entries: seq<DasEntry<J>>, w: Write<J>)
    ensures w in RunWrites(run, entries) <==>
      w.key == IntToString(run) && exists k :: 0 <= k < |entries| && Lists(entries[k], w.file, w.lumis)
    decreases |entries|
  {
    if |entries| > 0 {
      RunWritesMembers(run, entries[1..], w);
      assert forall k :: 0 < k < |entries| ==> entries[k] == entries[1..][k - 1];
      if w.key == IntToString(run) && w !in RunWrites(run, entries[1..])
         && exists k :: 0 <= k < |entries| && Lists(entries[k], w.file, w.lumis) {
        var k :| 0 <= k < |entries| && Lists(entries[k], w.file, w.lumis);
        assert k == 0;
      }
    }
  }

  /** The writes of two blocks of entries are those of the first block
      followed by those of the second. */
  lemma {:induction false} RunWritesAppend<J>(run: int, a: seq<DasEntry<J>>, b: seq<DasEntry<J>>)
    ensures RunWrites(run, a + b) == RunWrites(run, a) + RunWrites(run, b)
    decreases |a|
  {
    if |a| == 0 {
      assert a + b == b;
    } else {
      assert (a + b)[0] == a[0] && (a + b)[1..] == a[1..] + b;
      RunWritesAppend(run, a[1..], b);
    }
  }

  /** The assignments of all per-run queries, in the order of the runs; the
      first failing query stops the listing. */
  function CollectWrites<J>(das: DasClient, dataset: string, verbose: int, decode: Decoder<J>, runs: seq<int>)
    : (r: Result<seq<Write<J>>, DasError>)
    decreases |runs|
  {
    if |runs| == 0 then Success([])
    else
      match GetDasInfo(das, RunQuery(dataset, runs[0]), ListingMode, NestedVerbosity(verbose), decode)
      case Failure(e) => Failure(e)
      case Success(entries) =>
        match CollectWrites(das, dataset, verbose, decode, runs[1..])
        case Failure(e) => Failure(e)
        case Success(rest) => Success(RunWrites(runs[0], entries) + rest)
  }

  /** The per-run queries are issued in the order of the runs: the writes of
      the first `n` runs come before those of the rest, and a failure among
      the first `n` runs is the listing's error whatever the later runs
      would answer. */
  lemma {:induction false} CollectWritesInOrder<J>(das: DasClient, dataset: string, verbose: int,
                                                   decode: Decoder<J>, runs: seq<int>, n: nat)
    requires n <= |runs|
    ensures var all := CollectWrites(das, dataset, verbose, decode, runs);
      var front := CollectWrites(das, dataset, verbose, decode, runs[..n]);
      var back := CollectWrites(das, dataset, verbose, decode, runs[n..]);
      && (all.Success? <==> front.Success? && back.Success?)
      && (all.Success? ==> all.value == front.value + back.value)
      && (front.Failure? ==> all == front)
      && (front.Success? && back.Failure? ==> all == back)
    decreases n
  {
    if n == 0 {
      assert runs[..n] == [] && runs[n..] == runs;
    } else {
      var tail := runs[1..];
      assert runs[..n][0] == runs[0] && runs[..n][1..] == tail[..n - 1];
      assert tail[n - 1..] == runs[n..];
      CollectWritesInOrder(das, dataset, verbose, decode, tail, n - 1);
      CollectWritesUnfold(das, dataset, verbose, decode, runs);
      CollectWritesUnfold(das, dataset, verbose, decode, runs[..n]);
      var answer := GetDasInfo(das, RunQuery(dataset, runs[0]), ListingMode, NestedVerbosity(verbose), decode);
      var head := if answer.Success? then RunWrites(runs[0], answer.value) else [];
      InOrderStep(answer.Failure?, if answer.Failure? then answer.error else UnknownMode(""), head,
                  CollectWrites(das, dataset, verbose, decode, runs),
                  CollectWrites(das, dataset, verbose, decode, runs[..n]),
                  CollectWrites(das, dataset, verbose, decode, tail),
                  CollectWrites(das, dataset, verbose, decode, tail[..n - 1]),
                  CollectWrites(das, dataset, verbose, decode, runs[n..]));
    }
  }

  /** The step of `CollectWritesInOrder`: prefixing the same first query to
      a whole run list and to its first part keeps the split property. */
  lemma InOrderStep<W>(failed: bool, e: DasError, head: seq<W>,
                       all: Result<seq<W>, DasError>, front: Result<seq<W>, DasError>,
                       rest: Result<seq<W>, DasError>, restFront: Result<seq<W>, DasError>,
                       back: Result<seq<W>, DasError>)
    requires rest.Success? <==> restFront.Success? && back.Success?
    requires rest.Success? ==> rest.value == restFront.value + back.value
    requires restFront.Failure? ==> rest == restFront
    requires restFront.Success? && back.Failure? ==> rest == back
    requires failed ==> all == Failure(e) && front == Failure(e)
    requires !failed ==>
      && (all.Success? <==> rest.Success?) && (rest.Failure? ==> all == rest)
      && (all.Success? ==> all.value == head + rest.value)
      && (front.Success? <==> restFront.Success?) && (restFront.Failure? ==> front == restFront)
      && (front.Success? ==> front.value == head + restFront.value)
    ensures all.Success? <==> front.Success? && back.Success?
    ensures all.Success? ==> all.value == front.value + back.value
    ensures front.Failure? ==> all == front
    ensures front.Success? && back.Failure? ==> all == back
  {
    if !failed && all.Success? {
      assert head + (restFront.value + back.value) == (head + restFront.value) + back.value;
    }
  }

  /** One step of the per-run loop: the first run's query, then the rest. */
  lemma CollectWritesUnfold<J>(das: DasClient, dataset: string, verbose: int, decode: Decoder<J>, runs: seq<int>)
    requires |runs| > 0
    ensures var answer := GetDasInfo(das, RunQuery(dataset, runs[0]), ListingMode, NestedVerbosity(verbose), decode);
      var all := CollectWrites(das, dataset, verbose, decode, runs);
      var rest := CollectWrites(das, dataset, verbose, decode, runs[1..]);
      && (answer.Failure? ==> all == Failure(answer.error))
      && (answer.Success? ==>
            && (all.Success? <==> rest.Success?)
            && (rest.Failure? ==> all == rest)
            && (all.Success? ==> all.value == RunWrites(runs[0], answer.value) + rest.value))
  {
  }

  /** The per-run loop succeeds exactly when every run's query does, and
      otherwise fails with the error of the first run whose query fails. */
  lemma CollectWritesOutcome<J>(das: DasClient, dataset: string, verbose: int, decode: Decoder<J>, runs: seq<int>)
    ensures var r := CollectWrites(das, dataset, verbose, decode, runs);
      && (r.Success? <==> forall j :: 0 <= j < |runs| ==>
            GetDasInfo(das, RunQuery(dataset, runs[j]), ListingMode, NestedVerbosity(verbose), decode).Success?)
      && (r.Failure? ==>
            exists j :: && 0 <= j < |runs|
                        && GetDasInfo(das, RunQuery(dataset, runs[j]), ListingMode, NestedVerbosity(verbose), decode)
                           == Failure(r.error)
                        && forall k :: 0 <= k < j ==>
                             GetDasInfo(das, RunQuery(dataset, runs[k]), ListingMode, NestedVerbosity(verbose), decode).Success?)
  {
    CollectWritesSucceeds(das, dataset, verbose, decode, runs);
    if CollectWrites(das, dataset, verbose, decode, runs).Failure? {
      CollectWritesFirstFailure(das, dataset, verbose, decode, runs);
    }
  }

  lemma {:induction false} CollectWritesSucceeds<J>(das: DasClient, dataset: string, verbose: int,
                                                    decode: Decoder<J>, runs: seq<int>)
    ensures CollectWrites(das, dataset, verbose, decode, runs).Success? <==> forall j :: 0 <= j < |runs| ==>
      GetDasInfo(das, RunQuery(dataset, runs[j]), ListingMode, NestedVerbosity(verbose), decode).Success?
    decreases |runs|
  {
    if |runs| > 0 {
      CollectWritesUnfold(das, dataset, verbose, decode, runs);
      CollectWritesSucceeds(das, dataset, verbose, decode, runs[1..]);
      assert forall j :: 0 < j < |runs| ==> runs[1..][j - 1] == runs[j];
    }
  }

  lemma {:induction false} CollectWritesFirstFailure<J>(das: DasClient, dataset: string, verbose: int,
                                                        decode: Decoder<J>, runs: seq<int>)
    requires CollectWrites(das, dataset, verbose, decode, runs).Failure?
    ensures exists j :: && 0 <= j < |runs|
                        && GetDasInfo(das, RunQuery(dataset, runs[j]), ListingMode, NestedVerbosity(verbose), decode)
                           == Failure(CollectWrites(das, dataset, verbose, decode, runs).error)
                        && forall k :: 0 <= k < j ==>
                             GetDasInfo(das, RunQuery(dataset, runs[k]), ListingMode, NestedVerbosity(verbose), decode).Success?
    decreases |runs|
  {
    CollectWritesUnfold(das, dataset, verbose, decode, runs);
    var e := CollectWrites(das, dataset, verbose, decode, runs).error;
    if GetDasInfo(das, RunQuery(dataset, runs[0]), ListingMode, NestedVerbosity(verbose), decode).Success? {
      var tail := runs[1..];
      CollectWritesFirstFailure(das, dataset, verbose, decode, tail);
      var j :| && 0 <= j < |tail|
               && GetDasInfo(das, RunQuery(dataset, tail[j]), ListingMode, NestedVerbosity(verbose), decode) == Failure(e)
               && forall k :: 0 <= k < j ==>
                    GetDasInfo(das, RunQuery(dataset, tail[k]), ListingMode, NestedVerbosity(verbose), decode).Success?;
      assert runs[j + 1] == tail[j];
      assert forall k :: 0 < k <= j ==> runs[k] == tail[k - 1];
    }
  }

  /** `fileRunLumi[w.file][w.key] = w.lumis`, creating the file's entry when
      it is new. */
  function Apply<J>(m: map<string, map<string, J>>, w: Write<J>): map<string, map<string, J>>
  {
    m[w.file := (if w.file in m then m[w.file] else map[])[w.key := w.lumis]]
  }

  function ApplyWrites<J>(m: map<string, map<string, J>>, ws: seq<Write<J>>): map<string, map<string, J>>
    decreases |ws|
  {
    if |ws| == 0 then m else ApplyWrites(Apply(m, ws[0]), ws[1..])
  }

  /** Every assignment the listing makes, in order: the run query first,
      then one query per run in ascending order. */
  function ListingWrites<J>(das: DasClient, dataset: string, verbose: int, decode: Decoder<J>)
    : Result<seq<Write<J>>, DasError>
  {
    match RunList(das, dataset, verbose, decode)
    case Failure(e) => Failure(e)
    case Success(runs) => CollectWrites(das, dataset, verbose, decode, runs)
  }

  /** `getFileRunLumi`: the file -> (str(run) -> lumis) listing of a dataset. */
  function GetFileRunLumi<J>(das: DasClient, dataset: string, verbose: int, decode: Decoder<J>)
    : Result<map<string, map<string, J>>, DasError>
  {
    match ListingWrites(das, dataset, verbose, decode)
    case Failure(e) => Failure(e)
    case Success(ws) => Success(ApplyWrites(map[], ws))
  }

  /** Sorting the run numbers of run entries keeps exactly those runs. */
  lemma SortedRunNumbers<J>(entries: seq<DasEntry<J>>)
    requires forall k :: 0 <= k < |entries| ==> entries[k].RunEntry?
    ensures forall run :: run in Sort(RunNumbers(entries)) <==> RunEntry(run) in entries
  {
    RunNumbersOfRuns(entries);
    var runs := Sort(RunNumbers(entries));
    forall run ensures run in runs <==> RunEntry(run) in entries {
      assert run in runs <==> run in multiset(runs);
      if run in RunNumbers(entries) {
        var k :| 0 <= k < |entries| && RunNumbers(entries)[k] == run;
        assert entries[k] == RunEntry(run);
      }
      if RunEntry(run) in entries {
        var k :| 0 <= k < |entries| && entries[k] == RunEntry(run);
        assert RunNumbers(entries)[k] == run;
      }
    }
  }

  /** The runs listed are the run numbers of the non-blank lines of the
      run-mode answer, with their repetitions, in ascending order. */
  lemma RunListSpec<J(!new)>(das: DasClient, dataset: string, verbose: int, decode: Decoder<J>)
    requires RunList(das, dataset, verbose, decode).Success?
    ensures Ascending(RunList(das, dataset, verbose, decode).value)
    ensures var lines := das(RunMode + " " + BaseQuery(dataset), verbose);
      forall run :: run in RunList(das, dataset, verbose, decode).value <==>
        exists i :: 0 <= i < |lines| && ParseDasLine(RunMode, lines[i], decode) == Success(Some(RunEntry(run)))
  {
    var lines := das(RunMode + " " + BaseQuery(dataset), verbose);
    var entries := GetDasInfo(das, BaseQuery(dataset), RunMode, verbose, decode).value;
    var parse := LineParserFor(RunMode, decode);
    ParsedEntries(parse, lines);
    assert forall i :: 0 <= i < |lines| ==> parse(lines[i]) == ParseDasLine(RunMode, lines[i], decode);
    EntryKinds(das, BaseQuery(dataset), RunMode, verbose, decode);
    assert forall k :: 0 <= k < |entries| ==> entries[k].RunEntry?;
    SortedRunNumbers(entries);
  }

  /** The run list fails exactly when the run query does, with its error;
      otherwise it holds one run per entry of the answer, ascending. */
  lemma RunListOutcome<J(!new)>(das: DasClient, dataset: string, verbose: int, decode: Decoder<J>)
    ensures var answer := GetDasInfo(das, BaseQuery(dataset), RunMode, verbose, decode);
      var r := RunList(das, dataset, verbose, decode);
      && (answer.Failure? ==> r == Failure(answer.error))
      && (answer.Success? ==> r.Success? && |r.value| == |answer.value| && Ascending(r.value))
  {
    var answer := GetDasInfo(das, BaseQuery(dataset), RunMode, verbose, decode);
    if answer.Success? {
      EntryKinds(das, BaseQuery(dataset), RunMode, verbose, decode);
      assert forall k :: 0 <= k < |answer.value| ==> answer.value[k] in answer.value;
      RunNumbersOfRuns(answer.value);
      var runs := RunNumbers(answer.value);
      assert |multiset(Sort(runs))| == |multiset(runs)|;
    }
  }

  /** The run's query succeeded and returned a file line for `file` with the
      lumis `lumis`. */
  ghost predicate Returned<J>(das: DasClient, dataset: string, verbose: int, decode: Decoder<J>,
                                 run: int, file: string, lumis: J)
  {
    var answer := GetDasInfo(das, RunQuery(dataset, run), ListingMode, NestedVerbosity(verbose), decode);
    answer.Success? && exists k :: 0 <= k < |answer.value| && Lists(answer.value[k], file, lumis)
  }

  /** Every write comes from one of the queried runs, is keyed by that run,
      and carries the lumis a file line of its answer gave; and every such
      file line is written. */
  lemma {:induction false} CollectWritesMembers<J(!new)>(das: DasClient, dataset: string, verbose: int,
                                                          decode: Decoder<J>, runs: seq<int>, w: Write<J>)
    requires CollectWrites(das, dataset, verbose, decode, runs).Success?
    ensures w in CollectWrites(das, dataset, verbose, decode, runs).value <==>
      exists j :: 0 <= j < |runs| && w.key == IntToString(runs[j])
                  && Returned(das, dataset, verbose, decode, runs[j], w.file, w.lumis)
    decreases |runs|
  {
    if |runs| > 0 {
      var entries := GetDasInfo(das, RunQuery(dataset, runs[0]), ListingMode, NestedVerbosity(verbose), decode).value;
      CollectWritesMembers(das, dataset, verbose, decode, runs[1..], w);
      RunWritesMembers(runs[0], entries, w);
      assert forall j :: 0 < j < |runs| ==> runs[j] == runs[1..][j - 1];
    }
  }

  /** Looks up `m[file][key]`. */
  function Lookup<J>(m: map<string, map<string, J>>, file: string, key: string): Option<J>
  {
    if file in m && key in m[file] then Some(m[file][key]) else None
  }

  /** The lumis of the last write to `file` and `key`, if there is one. */
  function LastWrite<J>(ws: seq<Write<J>>, file: string, key: string): Option<J>
    decreases |ws|
  {
    if |ws| == 0 then None
    else if ws[|ws| - 1].file == file && ws[|ws| - 1].key == key then Some(ws[|ws| - 1].lumis)
    else LastWrite(ws[..|ws| - 1], file, key)
  }

  /** `LastWrite` finds nothing exactly when no write has this file and key,
      and otherwise the lumis of a write to them that no later write to them
      follows. */
  lemma {:induction false} LastWriteSpec<J>(ws: seq<Write<J>>, file: string, key: string)
    ensures var r := LastWrite(ws, file, key);
      && (r.None? <==> forall i :: 0 <= i < |ws| ==> !(ws[i].file == file && ws[i].key == key))
      && (r.Some? ==> exists i :: && 0 <= i < |ws| && ws[i].file == file && ws[i].key == key
                                 && r.value == ws[i].lumis
                                 && forall j :: i < j < |ws| ==> !(ws[j].file == file && ws[j].key == key))
    decreases |ws|
  {
    if |ws| > 0 && !(ws[|ws| - 1].file == file && ws[|ws| - 1].key == key) {
      LastWriteSpec(ws[..|ws| - 1], file, key);
      assert forall i :: 0 <= i < |ws| - 1 ==> ws[..|ws| - 1][i] == ws[i];
    }
  }

  lemma {:induction false} ApplyWritesSnoc<J>(m: map<string, map<string, J>>, ws: seq<Write<J>>, w: Write<J>)
    ensures ApplyWrites(m, ws + [w]) == Apply(ApplyWrites(m, ws), w)
    decreases |ws|
  {
    if |ws| == 0 {
      assert ApplyWrites(Apply(m, w), []) == Apply(m, w);
      assert ([] + [w])[1..] == [];
    } else {
      assert (ws + [w])[1..] == ws[1..] + [w];
      ApplyWritesSnoc(Apply(m, ws[0]), ws[1..], w);
    }
  }

  /** Applying the writes in order leaves each `(file, key)` with the lumis
      of its last write, and untouched when there is none. */
  lemma {:induction false} ApplyWritesLookup<J>(m: map<string, map<string, J>>, ws: seq<Write<J>>,
                                                file: string, key: string)
    ensures Lookup(ApplyWrites(m, ws), file, key) ==
      (if LastWrite(ws, file, key).Some? then LastWrite(ws, file, key) else Lookup(m, file, key))
    decreases |ws|
  {
    if |ws| > 0 {
      var init := ws[..|ws| - 1];
      var w := ws[|ws| - 1];
      assert ws == init + [w];
      ApplyWritesSnoc(m, init, w);
      ApplyWritesLookup(m, init, file, key);
    }
  }

  /** The files of the result are those of the starting map and those
      written, and no file is left with an empty entry. */
  lemma {:induction false} ApplyWritesFiles<J>(m: map<string, map<string, J>>, ws: seq<Write<J>>)
    requires forall f :: f in m ==> |m[f]| > 0
    ensures var res := ApplyWrites(m, ws);
      (forall f :: f in res <==> f in m || exists i :: 0 <= i < |ws| && ws[i].file == f)
      && forall f :: f in res ==> |res[f]| > 0
    decreases |ws|
  {
    if |ws| > 0 {
      ApplyWritesFiles(Apply(m, ws[0]), ws[1..]);
      assert forall i :: 0 < i < |ws| ==> ws[i] == ws[1..][i - 1];
    }
  }

  /** Folding the writes of the per-run queries names a file exactly when
      some queried run returned it, and never leaves a file without runs. */
  lemma CollectedFiles<J(!new)>(das: DasClient, dataset: string, verbose: int, decode: Decoder<J>,
                                runs: seq<int>, file: string)
    requires CollectWrites(das, dataset, verbose, decode, runs).Success?
    ensures var res := ApplyWrites(map[], CollectWrites(das, dataset, verbose, decode, runs).value);
      && (file in res <==>
            exists j, lumis :: 0 <= j < |runs| && Returned(das, dataset, verbose, decode, runs[j], file, lumis))
      && (file in res ==> |res[file]| > 0)
  {
    var ws := CollectWrites(das, dataset, verbose, decode, runs).value;
    ApplyWritesFiles(map[], ws);
    if i :| 0 <= i < |ws| && ws[i].file == file {
      CollectWritesMembers(das, dataset, verbose, decode, runs, ws[i]);
    }
    if j, lumis :| 0 <= j < |runs| && Returned(das, dataset, verbose, decode, runs[j], file, lumis) {
      var w := Write(file, IntToString(runs[j]), lumis);
      CollectWritesMembers(das, dataset, verbose, decode, runs, w);
      var i :| 0 <= i < |ws| && ws[i] == w;
    }
  }

  /** Folding the writes of the per-run queries gives a file the key `k`
      exactly when `k` is `str(R)` for a queried run `R` that returned it. */
  lemma CollectedKeys<J(!new)>(das: DasClient, dataset: string, verbose: int, decode: Decoder<J>,
                               runs: seq<int>, file: string, key: string)
    requires CollectWrites(das, dataset, verbose, decode, runs).Success?
    ensures var res := ApplyWrites(map[], CollectWrites(das, dataset, verbose, decode, runs).value);
      file in res && key in res[file] <==>
        exists j, lumis :: 0 <= j < |runs| && key == IntToString(runs[j])
                           && Returned(das, dataset, verbose, decode, runs[j], file, lumis)
  {
    var ws := CollectWrites(das, dataset, verbose, decode, runs).value;
    ApplyWritesLookup(map[], ws, file, key);
    LastWriteSpec(ws, file, key);
    if i :| 0 <= i < |ws| && ws[i].file == file && ws[i].key == key {
      CollectWritesMembers(das, dataset, verbose, decode, runs, ws[i]);
    }
    if j, lumis :| 0 <= j < |runs| && key == IntToString(runs[j])
                   && Returned(das, dataset, verbose, decode, runs[j], file, lumis) {
      var w := Write(file, key, lumis);
      CollectWritesMembers(das, dataset, verbose, decode, runs, w);
      var i :| 0 <= i < |ws| && ws[i] == w;
      assert ws[i].file == file && ws[i].key == key;
    }
  }

  /** The listing names a file exactly when some per-run query returned it,
      and every file it names has at least one run. */
  lemma FileRunLumiFiles<J(!new)>(das: DasClient, dataset: string, verbose: int, decode: Decoder<J>, file: string)
    requires GetFileRunLumi(das, dataset, verbose, decode).Success?
    ensures var res := GetFileRunLumi(das, dataset, verbose, decode).value;
      var runs := RunList(das, dataset, verbose, decode).value;
      && (file in res <==>
            exists j, lumis :: 0 <= j < |runs| && Returned(das, dataset, verbose, decode, runs[j], file, lumis))
      && (file in res ==> |res[file]| > 0)
  {
    var runs := RunList(das, dataset, verbose, decode).value;
    CollectedFiles(das, dataset, verbose, decode, runs, file);
  }

  /** Each value of the listing is the lumis of the last line written under
      its file and key: a later line for the same file and run overwrites an
      earlier one, and a (file, key) never written is absent. */
  lemma FileRunLumiLastWins<J(!new)>(das: DasClient, dataset: string, verbose: int, decode: Decoder<J>,
                                     file: string, key: string)
    requires GetFileRunLumi(das, dataset, verbose, decode).Success?
    ensures Lookup(GetFileRunLumi(das, dataset, verbose, decode).value, file, key)
            == LastWrite(ListingWrites(das, dataset, verbose, decode).value, file, key)
  {
    var ws := ListingWrites(das, dataset, verbose, decode).value;
    ApplyWritesLookup(map[], ws, file, key);
  }

  /** The run keys of a file are the queried runs, written as `str(run)`,
      whose answer named the file; the runs field of the line plays no part. */
  lemma FileRunLumiKeys<J(!new)>(das: DasClient, dataset: string, verbose: int, decode: Decoder<J>,
                                 file: string, key: string)
    requires GetFileRunLumi(das, dataset, verbose, decode).Success?
    ensures var res := GetFileRunLumi(das, dataset, verbose, decode).value;
      var runs := RunList(das, dataset, verbose, decode).value;
      file in res && key in res[file] <==>
        exists j, lumis :: 0 <= j < |runs| && key == IntToString(runs[j])
                           && Returned(das, dataset, verbose, decode, runs[j], file, lumis)
  {
    var runs := RunList(das, dataset, verbose, decode).value;
    CollectedKeys(das, dataset, verbose, decode, runs, file, key);
  }

  /** The parsed line is a file line for `file`. */
  predicate NamesFile<J>(r: Result<Option<DasEntry<J>>, DasError>, file: string)
  {
    r.Success? && r.value.Some? && r.value.value.FileEntry? && r.value.value.file == file
  }

  /** The last write to a (file, key) of two blocks of writes is the second
      block's, unless the second block has none. */
  lemma {:induction false} LastWriteAppend<J>(a: seq<Write<J>>, b: seq<Write<J>>, file: string, key: string)
    ensures LastWrite(a + b, file, key)
      == if LastWrite(b, file, key).Some? then LastWrite(b, file, key) else LastWrite(a, file, key)
    decreases |b|
  {
    if |b| == 0 {
      assert a + b == a;
    } else {
      var ab := a + b;
      assert ab[|ab| - 1] == b[|b| - 1];
      assert ab[..|ab| - 1] == a + b[..|b| - 1];
      LastWriteAppend(a, b[..|b| - 1], file, key);
    }
  }

  /** The last write of a single parsed line: its lumis when it names the
      file, nothing otherwise. */
  lemma LineLastWrite<J>(parse: LineParser<J>, run: int, line: string, file: string)
    requires parse(line).Success?
    ensures LastWrite(RunWrites(run, ParseLines(parse, [line]).value), file, IntToString(run))
      == if NamesFile(parse(line), file) then Some(parse(line).value.value.lumis) else None
  {
    ParseLinesSingle(parse, line);
    var entries := ParseLines(parse, [line]).value;
    var ws := RunWrites(run, entries);
    if |entries| == 1 {
      assert entries[1..] == [];
      assert ws == (if entries[0].FileEntry? then [Write(entries[0].file, IntToString(run), entries[0].lumis)] else []);
    }
  }

  /** Within one run's answer the last line naming a file decides its lumis:
      the run's writes leave `file` with the lumis of the last line that names
      it, and with nothing when no line does. */
  lemma {:induction false} LastLineWins<J>(parse: LineParser<J>, run: int, lines: seq<string>, file: string)
    requires ParseLines(parse, lines).Success?
    ensures var r := LastWrite(RunWrites(run, ParseLines(parse, lines).value), file, IntToString(run));
      && (r.None? <==> forall i :: 0 <= i < |lines| ==> !NamesFile(parse(lines[i]), file))
      && (r.Some? ==> exists i :: && 0 <= i < |lines| && NamesFile(parse(lines[i]), file)
                                 && r.value == parse(lines[i]).value.value.lumis
                                 && forall j :: i < j < |lines| ==> !NamesFile(parse(lines[j]), file))
    decreases |lines|
  {
    if |lines| > 0 {
      var n := |lines|;
      var init := lines[..n - 1];
      var last := lines[n - 1];
      assert lines == init + [last];
      ParseLinesAppend(parse, init, [last]);
      RunWritesAppend(run, ParseLines(parse, init).value, ParseLines(parse, [last]).value);
      LastWriteAppend(RunWrites(run, ParseLines(parse, init).value),
                      RunWrites(run, ParseLines(parse, [last]).value), file, IntToString(run));
      LineLastWrite(parse, run, last, file);
      LastLineWins(parse, run, init, file);
      assert forall i :: 0 <= i < n - 1 ==> lines[i] == init[i];
    }
  }

  /** The writes of one run never touch the key of another run. */
  lemma RunWritesOtherKey<J(!new)>(other: int, entries: seq<DasEntry<J>>, run: int, file: string)
    requires other != run
    ensures LastWrite(RunWrites(other, entries), file, IntToString(run)).None?
  {
    var ws := RunWrites(other, entries);
    LastWriteSpec(ws, file, IntToString(run));
    IntToStringInjective(other, run);
    forall i | 0 <= i < |ws| ensures ws[i].key != IntToString(run) {
      RunWritesMembers(other, entries, ws[i]);
    }
  }

  /** Across the per-run queries the last write under `str(run)` is the last
      write of that run's own answer, and there is none when the run was not
      queried. */
  lemma {:induction false} CollectWritesLast<J(!new)>(das: DasClient, dataset: string, verbose: int,
                                                       decode: Decoder<J>, runs: seq<int>, run: int, file: string)
    requires CollectWrites(das, dataset, verbose, decode, runs).Success?
    ensures var r := LastWrite(CollectWrites(das, dataset, verbose, decode, runs).value, file, IntToString(run));
      var answer := GetDasInfo(das, RunQuery(dataset, run), ListingMode, NestedVerbosity(verbose), decode);
      && (run !in runs ==> r.None?)
      && (run in runs ==> answer.Success? && r == LastWrite(RunWrites(run, answer.value), file, IntToString(run)))
    decreases |runs|
  {
    if |runs| > 0 {
      CollectWritesUnfold(das, dataset, verbose, decode, runs);
      var first := GetDasInfo(das, RunQuery(dataset, runs[0]), ListingMode, NestedVerbosity(verbose), decode);
      var head := RunWrites(runs[0], first.value);
      var rest := CollectWrites(das, dataset, verbose, decode, runs[1..]).value;
      CollectWritesLast(das, dataset, verbose, decode, runs[1..], run, file);
      LastWriteAppend(head, rest, file, IntToString(run));
      if runs[0] != run {
        RunWritesOtherKey(runs[0], first.value, run, file);
      }
      assert run in runs <==> run == runs[0] || run in runs[1..];
    }
  }

  /** A later line overwrites an earlier one: in the listing, each file holds
      under `str(run)` the lumis of the last line of that run's answer that
      names the file, holds nothing there when no such line exists, and
      nothing at all under a run that was not queried. */
  lemma FileRunLumiLastLine<J(!new)>(das: DasClient, dataset: string, verbose: int, decode: Decoder<J>,
                                     run: int, file: string)
    requires GetFileRunLumi(das, dataset, verbose, decode).Success?
    ensures var v := Lookup(GetFileRunLumi(das, dataset, verbose, decode).value, file, IntToString(run));
      var lines := das(ListingMode + " " + RunQuery(dataset, run), NestedVerbosity(verbose));
      && (run !in RunList(das, dataset, verbose, decode).value ==> v.None?)
      && (run in RunList(das, dataset, verbose, decode).value ==>
            && (v.None? <==> forall i :: 0 <= i < |lines| ==> !NamesFile(ParseDasLine(ListingMode, lines[i], decode), file))
            && (v.Some? ==> exists i :: && 0 <= i < |lines| && NamesFile(ParseDasLine(ListingMode, lines[i], decode), file)
                                        && v.value == ParseDasLine(ListingMode, lines[i], decode).value.value.lumis
                                        && forall j :: i < j < |lines| ==>
                                             !NamesFile(ParseDasLine(ListingMode, lines[j], decode), file)))
  {
    var runs := RunList(das, dataset, verbose, decode).value;
    var ws := CollectWrites(das, dataset, verbose, decode, runs).value;
    ApplyWritesLookup(map[], ws, file, IntToString(run));
    CollectWritesLast(das, dataset, verbose, decode, runs, run, file);
    if run in runs {
      var lines := das(ListingMode + " " + RunQuery(dataset, run), NestedVerbosity(verbose));
      var parse := LineParserFor(ListingMode, decode);
      LastLineWins(parse, run, lines, file);
      assert forall i :: 0 <= i < |lines| ==> parse(lines[i]) == ParseDasLine(ListingMode, lines[i], decode);
    }
  }

  /** `getFileRunLumi` fails with the run query's error when that fails, and
      otherwise exactly when some per-run query fails, with the error of the
      first run, in ascending order, whose query fails. */
  lemma FileRunLumiOutcome<J>(das: DasClient, dataset: string, verbose: int, decode: Decoder<J>)
    ensures var r := GetFileRunLumi(das, dataset, verbose, decode);
      var runList := RunList(das, dataset, verbose, decode);
      && (runList.Failure? ==> r == Failure(runList.error))
      && (runList.Success? ==>
            && (r.Success? <==> forall j :: 0 <= j < |runList.value| ==>
                  GetDasInfo(das, RunQuery(dataset, runList.value[j]), ListingMode, NestedVerbosity(verbose), decode).Success?)
            && (r.Failure? ==>
                  exists j :: && 0 <= j < |runList.value|
                              && GetDasInfo(das, RunQuery(dataset, runList.value[j]), ListingMode,
                                            NestedVerbosity(verbose), decode) == Failure(r.error)
                              && forall k :: 0 <= k < j ==>
                                   GetDasInfo(das, RunQuery(dataset, runList.value[k]), ListingMode,
                                              NestedVerbosity(verbose), decode).Success?))
  {
    var runList := RunList(das, dataset, verbose, decode);
    if runList.Success? {
      CollectWritesOutcome(das, dataset, verbose, decode, runList.value);
    }
  }
}
