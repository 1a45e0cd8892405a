/** confconv/cli.py: `convert_file`, the per-file pipeline, and the batch
    loop of the `to-<format>` commands. The file system is a map from paths
    to contents and the console a list of lines. */
module Cli {
  import opened Wrappers
  import opened Documents
  import opened PurePaths
  import opened Formats
  import opened Errors
  import opened Converters
  import opened Utils

  /** A line echoed to the console. */
  datatype Line =
    | SkippedSameFormat(input: string)          // by convert_file
    | Converted(input: string, output: string)  // by convert_file
    | OutputExists(output: string)              // by the batch loop
    | ErrorLine(message: Message)               // by the batch loop, for a ClickException
    | UnknownErrorLine(message: Message)        // by the batch loop, for any other exception

  /** Files by path; a path absent from the map does not exist. */
  type FileSystem = map<Path, string>

  /** What a call did: the files afterwards, the lines it echoed and the
      exception it raised, if any. */
  datatype Outcome = Outcome(files: FileSystem, lines: seq<Line>, raised: Option<Exception>)

  /** The `except` clauses of convert_file: a ConversionError keeps its
      message, anything else (including the ClickExceptions raised inside
      the `try`) gets the generic "conversion failed" prefix. */
  function Wrap(e: Exception): Exception
  {
    match e
    case ConversionError(m) => ClickException(m)
    case _ => ClickException(ConversionFailed(e.message))
  }

  /** The output path of `inputFile` for `targetFormat` exists and is `k`. */
  predicate OutputIs(k: Path, inputFile: string, targetFormat: string)
  {
    GenerateOutputPath(inputFile, targetFormat).Ok? && Parse(GenerateOutputPath(inputFile, targetFormat).value) == k
  }

  /** The lines convert_file itself echoes. */
  predicate FromConvertFile(line: Line)
  {
    line.SkippedSameFormat? || line.Converted?
  }

  /** The body of the `try` in convert_file, with its exception unwrapped. */
  function Attempt(lib: Library, files: FileSystem, inputPath: string, targetFormat: string): (a: Outcome)
    ensures a.raised.Some? ==> a.files == files && a.lines == []
    ensures forall i :: 0 <= i < |a.lines| ==> FromConvertFile(a.lines[i])
    ensures files.Keys <= a.files.Keys
    ensures forall k :: k in a.files && (k !in files || a.files[k] != files[k]) ==> OutputIs(k, inputPath, targetFormat)
  {
    var inPath := Parse(inputPath);
    if inPath !in files then Outcome(files, [], Some(OSError(Unreadable(inputPath))))
    else
      var content := files[inPath];
      var sourceFormat := GetFileFormat(inputPath);
      if sourceFormat !in CONVERTERS then Outcome(files, [], Some(ClickException(UnsupportedSource(sourceFormat))))
      else if targetFormat !in CONVERTERS then Outcome(files, [], Some(ClickException(UnsupportedTarget(targetFormat))))
      else if sourceFormat == targetFormat then Outcome(files, [SkippedSameFormat(inputPath)], None)
      else match Load(lib, CONVERTERS[sourceFormat], content)
        case Err(e) => Outcome(files, [], Some(e))
        case Ok(data) => match Dumped(lib, CONVERTERS[targetFormat], data)
          case Err(e) => Outcome(files, [], Some(e))
          case Ok(result) => match GenerateOutputPath(inputPath, targetFormat)
            case Err(e) => Outcome(files, [], Some(e))
            case Ok(outputPath) =>
              if Parse(outputPath) == inPath then Outcome(files, [], Some(ClickException(CannotOverwrite(inputPath))))
              else Outcome(files[Parse(outputPath) := result], [Converted(inputPath, outputPath)], None)
  }

  /** `convert_file(input_path, target_format)`. */
  function ConvertFileOutcome(lib: Library, files: FileSystem, inputPath: string, targetFormat: string): (o: Outcome)
    ensures o.raised.Some? ==> o.raised.value.ClickException? && o.files == files && o.lines == []
    ensures forall i :: 0 <= i < |o.lines| ==> FromConvertFile(o.lines[i])
    ensures files.Keys <= o.files.Keys
    ensures forall k :: k in o.files && (k !in files || o.files[k] != files[k]) ==> OutputIs(k, inputPath, targetFormat)
  {
    var a := Attempt(lib, files, inputPath, targetFormat);
    match a.raised
    case None => a
    case Some(e) => Outcome(a.files, a.lines, Some(Wrap(e)))
  }

  /** The line the batch loop prints for an exception it catches. */
  function Report(e: Exception): Line
  {
    if e.ClickException? then ErrorLine(e.message) else UnknownErrorLine(e.message)
  }

  /** The batch loop's own console output, silenced by `--quiet`. */
  function Unless(quiet: bool, lines: seq<Line>): seq<Line>
  {
    if quiet then [] else lines
  }

  /** What the files and the console look like after a batch. */
  datatype Effect = Effect(files: FileSystem, lines: seq<Line>)

  /** One turn of the batch loop for one input file. It deletes no file,
      and the only file it may create or change is the input's output. */
  function Step(lib: Library, files: FileSystem, targetFormat: string, inputFile: string, force: bool, quiet: bool): (e: Effect)
    ensures files.Keys <= e.files.Keys
    ensures forall k :: k in e.files && (k !in files || e.files[k] != files[k]) ==> OutputIs(k, inputFile, targetFormat)
  {
    match GenerateOutputPath(inputFile, targetFormat)
    case Err(e) => Effect(files, Unless(quiet, [Report(e)]))
    case Ok(outputPath) =>
      if Parse(outputPath) in files && !force then Effect(files, Unless(quiet, [OutputExists(outputPath)]))
      else
        var o := ConvertFileOutcome(lib, files, inputFile, targetFormat);
        Effect(o.files, o.lines + if o.raised.Some? then Unless(quiet, [Report(o.raised.value)]) else [])
  }

  /** The batch loop over `inputFiles`, in order. It deletes no file, and
      every file it creates or changes is the output of one of the inputs. */
  function Batch(lib: Library, files: FileSystem, targetFormat: string, inputFiles: seq<string>, force: bool, quiet: bool): (e: Effect)
    ensures files.Keys <= e.files.Keys
    ensures forall k :: k in e.files && (k !in files || e.files[k] != files[k]) ==>
      exists i :: 0 <= i < |inputFiles| && OutputIs(k, inputFiles[i], targetFormat)
  {
    if inputFiles == [] then Effect(files, [])
    else
      var n := |inputFiles| - 1;
      var before := Batch(lib, files, targetFormat, inputFiles[..n], force, quiet);
      var last := Step(lib, before.files, targetFormat, inputFiles[n], force, quiet);
      Effect(last.files, before.lines + last.lines)
  }

  /** One more turn of the batch loop processes one more input file. */
  lemma BatchSnoc(lib: Library, files: FileSystem, targetFormat: string, inputFiles: seq<string>, i: nat, force: bool, quiet: bool)
    requires i < |inputFiles|
    ensures var before := Batch(lib, files, targetFormat, inputFiles[..i], force, quiet);
      var step := Step(lib, before.files, targetFormat, inputFiles[i], force, quiet);
      Batch(lib, files, targetFormat, inputFiles[..i + 1], force, quiet) == Effect(step.files, before.lines + step.lines)
  {
    assert inputFiles[..i + 1][..i] == inputFiles[..i];
  }

  /** One `to-<format>` command per registered format. */
  const COMMANDS: map<string, string> :=
    map command | command in (set f | f in CONVERTERS :: "to-" + f) :: command := command[3..]

  // ----- properties of convert_file -----

  /** An input that cannot be read fails first, whatever the target. */
  lemma UnreadableFirst(lib: Library, files: FileSystem, inputPath: string, targetFormat: string)
    requires Parse(inputPath) !in files
    ensures ConvertFileOutcome(lib, files, inputPath, targetFormat) ==
      Outcome(files, [], Some(ClickException(ConversionFailed(Unreadable(inputPath)))))
  {
  }

  /** An unsupported source format is reported before the target is
      looked at, and with the generic prefix, since the ClickException is
      raised inside the `try`. */
  lemma UnsupportedSourceFirst(lib: Library, files: FileSystem, inputPath: string, targetFormat: string)
    requires Parse(inputPath) in files && GetFileFormat(inputPath) !in CONVERTERS
    ensures ConvertFileOutcome(lib, files, inputPath, targetFormat) ==
      Outcome(files, [], Some(ClickException(ConversionFailed(UnsupportedSource(GetFileFormat(inputPath))))))
  {
  }

  /** An unsupported target is reported next. */
  lemma UnsupportedTargetSecond(lib: Library, files: FileSystem, inputPath: string, targetFormat: string)
    requires Parse(inputPath) in files && GetFileFormat(inputPath) in CONVERTERS && targetFormat !in CONVERTERS
    ensures ConvertFileOutcome(lib, files, inputPath, targetFormat) ==
      Outcome(files, [], Some(ClickException(ConversionFailed(UnsupportedTarget(targetFormat)))))
  {
  }

  /** A file already in the target format is skipped with a message:
      nothing is loaded, dumped or written, whatever the libraries do. */
  lemma SameFormatSkips(lib: Library, files: FileSystem, inputPath: string)
    requires Parse(inputPath) in files && GetFileFormat(inputPath) in CONVERTERS
    ensures ConvertFileOutcome(lib, files, inputPath, GetFileFormat(inputPath)) ==
      Outcome(files, [SkippedSameFormat(inputPath)], None)
  {
  }

  /** Once the formats are known and different, loading and dumping
      decide everything: when both succeed the result is written to the
      output path and reported. The output path always exists (a known
      source format implies a final component with a suffix) and always
      differs from the input (its format is the target), so neither the
      path error nor the self-overwrite branch can be reached. */
  lemma ConvertWrites(lib: Library, files: FileSystem, inputPath: string, targetFormat: string)
    requires Parse(inputPath) in files
    requires GetFileFormat(inputPath) in CONVERTERS && targetFormat in CONVERTERS
    requires GetFileFormat(inputPath) != targetFormat
    requires Load(lib, CONVERTERS[GetFileFormat(inputPath)], files[Parse(inputPath)]).Ok?
    requires Dumped(lib, CONVERTERS[targetFormat], Load(lib, CONVERTERS[GetFileFormat(inputPath)], files[Parse(inputPath)]).value).Ok?
    ensures GenerateOutputPath(inputPath, targetFormat).Ok?
    ensures var out := GenerateOutputPath(inputPath, targetFormat).value;
      var data := Load(lib, CONVERTERS[GetFileFormat(inputPath)], files[Parse(inputPath)]).value;
      && Parse(out) != Parse(inputPath)
      && ConvertFileOutcome(lib, files, inputPath, targetFormat) ==
           Outcome(files[Parse(out) := Dumped(lib, CONVERTERS[targetFormat], data).value], [Converted(inputPath, out)], None)
  {
    GenerateFailsOnlyWithoutName(inputPath, targetFormat);
    OutputDiffersFromInput(inputPath, targetFormat);
  }

  /** The guard against overwriting the input never fires. */
  lemma SelfOverwriteUnreachable(lib: Library, files: FileSystem, inputPath: string, targetFormat: string)
    ensures ConvertFileOutcome(lib, files, inputPath, targetFormat).raised !=
      Some(ClickException(ConversionFailed(CannotOverwrite(inputPath))))
  {
    var sourceFormat := GetFileFormat(inputPath);
    if Parse(inputPath) in files && sourceFormat in CONVERTERS && targetFormat in CONVERTERS && sourceFormat != targetFormat {
      var loaded := Load(lib, CONVERTERS[sourceFormat], files[Parse(inputPath)]);
      if loaded.Ok? && Dumped(lib, CONVERTERS[targetFormat], loaded.value).Ok? {
        ConvertWrites(lib, files, inputPath, targetFormat);
      }
    }
  }

  /** What escapes convert_file is a ClickException whose message is a
      converter's own exactly when a converter failed; every other failure
      carries the generic prefix. */
  lemma RaisedMessageShape(lib: Library, files: FileSystem, inputPath: string, targetFormat: string)
    ensures var a := Attempt(lib, files, inputPath, targetFormat);
      var o := ConvertFileOutcome(lib, files, inputPath, targetFormat);
      && (o.raised.Some? <==> a.raised.Some?)
      && (o.raised.Some? ==>
            && o.raised.value.ClickException?
            && (o.raised.value.message.Conversion? || o.raised.value.message.ConversionFailed?)
            && (o.raised.value.message.Conversion? <==> a.raised.value.ConversionError?))
  {
  }

  /** A failing load or dump reaches the user with the converter's own
      message, without the generic prefix, and leaves the files alone. */
  lemma ConversionErrorKeepsMessage(lib: Library, files: FileSystem, inputPath: string, targetFormat: string)
    requires Parse(inputPath) in files
    requires GetFileFormat(inputPath) in CONVERTERS && targetFormat in CONVERTERS
    requires GetFileFormat(inputPath) != targetFormat
    ensures var loaded := Load(lib, CONVERTERS[GetFileFormat(inputPath)], files[Parse(inputPath)]);
      var o := ConvertFileOutcome(lib, files, inputPath, targetFormat);
      && (loaded.Err? ==> o == Outcome(files, [], Some(ClickException(loaded.error.message))))
      && (loaded.Ok? && Dumped(lib, CONVERTERS[targetFormat], loaded.value).Err? ==>
            o == Outcome(files, [], Some(ClickException(Dumped(lib, CONVERTERS[targetFormat], loaded.value).error.message))))
  {
  }

  // ----- properties of the batch loop -----

  /** A batch over `a + b` is a batch over `a` followed by a batch over `b`
      on the files `a` left behind: every input is visited in order, and
      nothing that happens to one input stops the ones after it. */
  lemma {:induction false} BatchAppend(lib: Library, files: FileSystem, targetFormat: string, a: seq<string>, b: seq<string>, force: bool, quiet: bool)
    ensures var first := Batch(lib, files, targetFormat, a, force, quiet);
      var second := Batch(lib, first.files, targetFormat, b, force, quiet);
      Batch(lib, files, targetFormat, a + b, force, quiet) == Effect(second.files, first.lines + second.lines)
    decreases |b|
  {
    var first := Batch(lib, files, targetFormat, a, force, quiet);
    if b == [] {
      assert a + b == a;
    } else {
      var n := |b| - 1;
      BatchAppend(lib, files, targetFormat, a, b[..n], force, quiet);
      assert (a + b)[..|a + b| - 1] == a + b[..n];
      assert (a + b)[|a + b| - 1] == b[n];
      var second := Batch(lib, first.files, targetFormat, b[..n], force, quiet);
      var step := Step(lib, second.files, targetFormat, b[n], force, quiet);
      AppendAssoc(first.lines, second.lines, step.lines);
    }
  }

  /** An input whose output already exists is skipped without `--force`:
      convert_file is not called and the files stay as they are. */
  lemma ExistingOutputSkipped(lib: Library, files: FileSystem, targetFormat: string, inputFile: string, quiet: bool)
    requires GenerateOutputPath(inputFile, targetFormat).Ok?
    requires Parse(GenerateOutputPath(inputFile, targetFormat).value) in files
    ensures Step(lib, files, targetFormat, inputFile, false, quiet) ==
      Effect(files, Unless(quiet, [OutputExists(GenerateOutputPath(inputFile, targetFormat).value)]))
  {
  }

  /** A turn of the loop never changes its own input file: either the
      output exists and is skipped, or convert_file skips the same format,
      or the output path differs from the input. */
  lemma StepKeepsInput(lib: Library, files: FileSystem, targetFormat: string, inputFile: string, force: bool, quiet: bool)
    requires Parse(inputFile) in files
    ensures var e := Step(lib, files, targetFormat, inputFile, force, quiet);
      Parse(inputFile) in e.files && e.files[Parse(inputFile)] == files[Parse(inputFile)]
  {
    var source := GetFileFormat(inputFile);
    if source in CONVERTERS && targetFormat in CONVERTERS && source != targetFormat {
      var loaded := Load(lib, CONVERTERS[source], files[Parse(inputFile)]);
      if loaded.Ok? && Dumped(lib, CONVERTERS[targetFormat], loaded.value).Ok? {
        ConvertWrites(lib, files, inputFile, targetFormat);
      }
    }
  }

  /** A file whose suffix already is the target's extension is its own
      output path. Without `--force` the loop therefore reports its output
      as existing, and convert_file's "skipped" line is reached only with
      `--force`. */
  lemma SameFormatNeedsForce(lib: Library, files: FileSystem, targetFormat: string, inputFile: string, quiet: bool)
    requires targetFormat in CONVERTERS && Parse(inputFile) in files
    requires Suffix(Name(Parse(inputFile))) == EXTENSIONS[targetFormat]
    ensures OutputIs(Parse(inputFile), inputFile, targetFormat)
    ensures Step(lib, files, targetFormat, inputFile, false, quiet) ==
      Effect(files, Unless(quiet, [OutputExists(GenerateOutputPath(inputFile, targetFormat).value)]))
    ensures Step(lib, files, targetFormat, inputFile, true, quiet) == Effect(files, [SkippedSameFormat(inputFile)])
  {
    RegistryKeys();
    OwnOutput(inputFile, targetFormat);
    ExistingOutputSkipped(lib, files, targetFormat, inputFile, quiet);
    ForcedSameFormatSkips(lib, files, targetFormat, inputFile, quiet);
  }

  /** With `--force`, a turn over an input of the target's own format
      reaches convert_file, which skips it without raising. */
  lemma ForcedSameFormatSkips(lib: Library, files: FileSystem, targetFormat: string, inputFile: string, quiet: bool)
    requires targetFormat in CONVERTERS && Parse(inputFile) in files
    requires GetFileFormat(inputFile) == targetFormat
    requires GenerateOutputPath(inputFile, targetFormat).Ok?
    ensures Step(lib, files, targetFormat, inputFile, true, quiet) == Effect(files, [SkippedSameFormat(inputFile)])
  {
    SameFormatSkips(lib, files, inputFile);
    var o := ConvertFileOutcome(lib, files, inputFile, targetFormat);
    assert o.lines + [] == o.lines;
  }

  /** A suffix that differs from the target's extension only in case gives
      the target's format but a different output path: `a.JSON` for json is
      written to `a.json`. When that file does not exist, the turn reaches
      convert_file without `--force`, which echoes "skipped". */
  lemma CaseOnlySuffixSkips(lib: Library, files: FileSystem, quiet: bool)
    requires Parse("a.JSON") in files && Parse("a.json") !in files
    ensures GetFileFormat("a.JSON") == "json"
    ensures GenerateOutputPath("a.JSON", "json") == Ok("a.json")
    ensures Step(lib, files, "json", "a.JSON", false, quiet) == Effect(files, [SkippedSameFormat("a.JSON")])
  {
    RegistryKeys();
    MixedCaseFormat();
    MixedCaseOutput();
    SameFormatSkips(lib, files, "a.JSON");
    var o := ConvertFileOutcome(lib, files, "a.JSON", "json");
    assert o.lines + [] == o.lines;
  }

  /** An input without a final component (such as "/") makes the batch
      loop's own call of generate_output_path raise ValueError, which is
      reported as an unknown error. */
  lemma NamelessInputReported(lib: Library, files: FileSystem, targetFormat: string, inputFile: string, force: bool, quiet: bool)
    requires targetFormat in EXTENSIONS && Name(Parse(inputFile)) == ""
    ensures Step(lib, files, targetFormat, inputFile, force, quiet) ==
      Effect(files, Unless(quiet, [UnknownErrorLine(BadPath(EmptyName(PathStr(Parse(inputFile)))))]))
  {
    GenerateFailsOnlyWithoutName(inputFile, targetFormat);
  }

  /** `lines` without the ones the batch loop prints itself. */
  function Muted(lines: seq<Line>): (r: seq<Line>)
    ensures forall i :: 0 <= i < |r| ==> FromConvertFile(r[i])
    ensures (forall i :: 0 <= i < |lines| ==> FromConvertFile(lines[i])) ==> r == lines
  {
    if lines == [] then []
    else (if FromConvertFile(lines[0]) then [lines[0]] else []) + Muted(lines[1..])
  }

  lemma {:induction false} MutedAppend(a: seq<Line>, b: seq<Line>)
    ensures Muted(a + b) == Muted(a) + Muted(b)
  {
    if a == [] {
      assert a + b == b;
    } else {
      assert (a + b)[0] == a[0];
      assert (a + b)[1..] == a[1..] + b;
      MutedAppend(a[1..], b);
      AppendAssoc(if FromConvertFile(a[0]) then [a[0]] else [], Muted(a[1..]), Muted(b));
    }
  }

  lemma StepQuiet(lib: Library, files: FileSystem, targetFormat: string, inputFile: string, force: bool)
    ensures var loud := Step(lib, files, targetFormat, inputFile, force, false);
      Step(lib, files, targetFormat, inputFile, force, true) == Effect(loud.files, Muted(loud.lines))
  {
    var generated := GenerateOutputPath(inputFile, targetFormat);
    if generated.Ok? && !(Parse(generated.value) in files && !force) {
      var o := ConvertFileOutcome(lib, files, inputFile, targetFormat);
      if o.raised.Some? {
        MutedAppend(o.lines, [Report(o.raised.value)]);
        assert Muted([Report(o.raised.value)]) == [];
      } else {
        assert o.lines + [] == o.lines;
      }
    }
  }

  /** `--quiet` leaves the files exactly as without it and removes only the
      batch loop's own lines: the "skipped" and "converted" lines of
      convert_file are still printed. */
  lemma {:induction false} QuietMutesOnlyBatchLines(lib: Library, files: FileSystem, targetFormat: string, inputFiles: seq<string>, force: bool)
    ensures var loud := Batch(lib, files, targetFormat, inputFiles, force, false);
      Batch(lib, files, targetFormat, inputFiles, force, true) == Effect(loud.files, Muted(loud.lines))
  {
    if inputFiles != [] {
      var n := |inputFiles| - 1;
      QuietMutesOnlyBatchLines(lib, files, targetFormat, inputFiles[..n], force);
      var before := Batch(lib, files, targetFormat, inputFiles[..n], force, false);
      StepQuiet(lib, before.files, targetFormat, inputFiles[n], force);
      MutedAppend(before.lines, Step(lib, before.files, targetFormat, inputFiles[n], force, false).lines);
    }
  }

  /** Exactly one command `to-<f>` per registered format `f`, and that
      command converts to `f`. */
  lemma CommandPerFormat(f: string)
    ensures "to-" + f in COMMANDS <==> f in CONVERTERS
    ensures f in CONVERTERS ==> COMMANDS["to-" + f] == f
  {
    if "to-" + f in COMMANDS {
      var g :| g in CONVERTERS && "to-" + g == "to-" + f;
      assert g == ("to-" + g)[3..];
    }
  }

  /** Every command's target has an extension, so the batch loop's call of
      generate_output_path never raises KeyError. */
  lemma BatchTargetKnown(command: string, inputFile: string)
    requires command in COMMANDS
    ensures COMMANDS[command] in EXTENSIONS
    ensures GenerateOutputPath(inputFile, COMMANDS[command]).Err? ==>
      GenerateOutputPath(inputFile, COMMANDS[command]).error.ValueError?
  {
    var f :| f in CONVERTERS && command == "to-" + f;
    CommandPerFormat(f);
  }

  /** The running program: its file system, its console and the libraries
      the converters forward to. */
  class Host {
    var files: FileSystem
    var console: seq<Line>
    const lib: Library

    constructor(lib: Library, files: FileSystem)
      ensures this.lib == lib && this.files == files && console == []
    {
      this.lib := lib;
      this.files := files;
      console := [];
    }

    /** The `try` block of convert_file. */
    method TryConvert(inputPath: string, targetFormat: string) returns (raised: Option<Exception>)
      modifies this
      ensures var a := Attempt(lib, old(files), inputPath, targetFormat);
        files == a.files && console == old(console) + a.lines && raised == a.raised
    {
      var inPath := Parse(inputPath);
      if inPath !in files {
        return Some(OSError(Unreadable(inputPath)));
      }
      var content := files[inPath];
      var sourceFormat := GetFileFormat(inputPath);
      if sourceFormat !in CONVERTERS {
        return Some(ClickException(UnsupportedSource(sourceFormat)));
      }
      if targetFormat !in CONVERTERS {
        return Some(ClickException(UnsupportedTarget(targetFormat)));
      }
      if sourceFormat == targetFormat {
        console := console + [SkippedSameFormat(inputPath)];
        return None;
      }
      ghost var fs := files;
      var data := Load(lib, CONVERTERS[sourceFormat], content);
      if data.Err? {
        assert Attempt(lib, fs, inputPath, targetFormat) == Outcome(fs, [], Some(data.error));
        return Some(data.error);
      }
      var result := Dump(lib, CONVERTERS[targetFormat], data.value);
      if result.Err? {
        assert Attempt(lib, fs, inputPath, targetFormat) == Outcome(fs, [], Some(result.error));
        return Some(result.error);
      }
      var outputPath := GenerateOutputPath(inputPath, targetFormat);
      if outputPath.Err? {
        assert Attempt(lib, fs, inputPath, targetFormat) == Outcome(fs, [], Some(outputPath.error));
        return Some(outputPath.error);
      }
      if Parse(outputPath.value) == inPath {
        return Some(ClickException(CannotOverwrite(inputPath)));
      }
      assert Attempt(lib, fs, inputPath, targetFormat) ==
        Outcome(fs[Parse(outputPath.value) := result.value], [Converted(inputPath, outputPath.value)], None);
      files := files[Parse(outputPath.value) := result.value];
      console := console + [Converted(inputPath, outputPath.value)];
      return None;
    }

    /** `convert_file`. */
    method ConvertFile(inputPath: string, targetFormat: string) returns (raised: Option<Exception>)
      modifies this
      ensures var o := ConvertFileOutcome(lib, old(files), inputPath, targetFormat);
        files == o.files && console == old(console) + o.lines && raised == o.raised
    {
      raised := TryConvert(inputPath, targetFormat);
      if raised.Some? {
        raised := Some(Wrap(raised.value));
      }
    }

    /** One turn of the loop in `converter`. */
    method RunStep(targetFormat: string, inputFile: string, force: bool, quiet: bool)
      modifies this
      ensures var e := Step(lib, old(files), targetFormat, inputFile, force, quiet);
        files == e.files && console == old(console) + e.lines
    {
      ghost var e := Step(lib, files, targetFormat, inputFile, force, quiet);
      var outputPath := GenerateOutputPath(inputFile, targetFormat);
      if outputPath.Err? {
        assert e == Effect(files, Unless(quiet, [Report(outputPath.error)]));
        console := console + Unless(quiet, [Report(outputPath.error)]);
      } else if Parse(outputPath.value) in files && !force {
        assert e == Effect(files, Unless(quiet, [OutputExists(outputPath.value)]));
        console := console + Unless(quiet, [OutputExists(outputPath.value)]);
      } else {
        ghost var o := ConvertFileOutcome(lib, files, inputFile, targetFormat);
        ghost var report := if o.raised.Some? then Unless(quiet, [Report(o.raised.value)]) else [];
        assert e == Effect(o.files, o.lines + report);
        AppendAssoc(console, o.lines, report);
        var raised := ConvertFile(inputFile, targetFormat);
        if raised.Some? {
          console := console + Unless(quiet, [Report(raised.value)]);
        } else {
          assert console + [] == console;
        }
      }
    }

    /** The `converter` function of the command called `command`. */
    method RunCommand(command: string, inputFiles: seq<string>, force: bool, quiet: bool)
      requires command in COMMANDS
      modifies this
      ensures var e := Batch(lib, old(files), COMMANDS[command], inputFiles, force, quiet);
        files == e.files && console == old(console) + e.lines
    {
      var targetFormat := COMMANDS[command];
      for i := 0 to |inputFiles|
        invariant var e := Batch(lib, old(files), targetFormat, inputFiles[..i], force, quiet);
          files == e.files && console == old(console) + e.lines
      {
        ghost var before := Batch(lib, old(files), targetFormat, inputFiles[..i], force, quiet);
        ghost var step := Step(lib, before.files, targetFormat, inputFiles[i], force, quiet);
        BatchSnoc(lib, old(files), targetFormat, inputFiles, i, force, quiet);
        AppendAssoc(old(console), before.lines, step.lines);
        RunStep(targetFormat, inputFiles[i], force, quiet);
      }
      assert inputFiles[..|inputFiles|] == inputFiles;
    }
  }
}
