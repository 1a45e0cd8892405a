# confconv in Dafny

confconv is a command-line tool that converts configuration files between
YAML, JSON, TOML and INI. This project models its core and proves properties
of the model:

- **the format registry** (`CONVERTERS`, `EXTENSIONS`). Module `Formats`.
- **the converters** (`converters.py`). Every `load` and `dump` wraps any
  failure in a `ConversionError` that names the converter and the direction.
  The INI converter is modelled up to what "Left out" lists, together
  with the part of `configparser.ConfigParser` it drives: `__setitem__`,
  and `write` with its per-section `_write_section`. `INIConverter.dump` is an imperative loop over a
  `ConfigParser` object. Here that object is a class whose methods change
  its fields, and the loop is a method proved against a specification
  function. Module `Converters`.
- **the path logic** (`utils.py`). `get_file_format` and
  `generate_output_path` sit on a model of pathlib's POSIX flavour:
  parsing, `str()`, `name`, `suffix`, `stem` and `with_suffix`, with the
  suffix rule of CPython 3.12. Modules `PurePaths` and `Utils`.
- **the command line** (`cli.py`). `convert_file` and the batch loop of every
  `to-<format>` command run on a `Host` object. The object holds the file
  system (a map from parsed paths to contents) and the console (a list of
  lines). Each method is tied to a function that says what the call does.
  Lemmas state the check order, the fail-soft batch, `--force` and
  `--quiet`. Module `Cli`.

Exceptions and their messages are structured values (module `Errors`). The
pivot document is a closed datatype (module `Documents`). Its mappings keep
insertion order and may have non-string keys, as YAML's do.

Behaviour of the code worth knowing:

- INI dump hands `config.write` a list instead of a file. Every document
  that puts anything into the parser therefore fails, at the latest at
  the first `fp.write`. Only `{}` and `{"DEFAULT": {}}` dump, both to
  `""`. A list or dict nested inside a section's dict is printed with
  `str()`, not rejected. A section value that is not a dict fails on `.items()`.
- The `ClickException`s for an unsupported source or target are raised
  inside `convert_file`'s `try`. They are caught by its `except Exception`
  and reach the user with the generic "conversion failed" prefix. Only a
  `ConversionError` keeps its own message.
- The input file is read before either format is checked. A missing input
  therefore fails first, whatever the formats are.
- The self-overwrite guard can never fire. The output path's format is
  always the target, and the input's format differs from it.
- `--quiet` silences only the batch loop's own lines. The "skipped" and
  "converted" lines that `convert_file` echoes are still printed.
- Without `--force`, an input whose suffix already is the target's
  extension (such as `a.json` for `to-json`) is its own output path, which
  exists, so the loop reports it as an existing output. For such an input,
  convert_file's "skipped" line is reached only with `--force`. A suffix
  that differs from the extension only in case (`a.JSON` for `to-json`)
  has the target's format but the lower-case output path `a.json`. When
  that file does not exist, the input reaches "skipped" without `--force`.
- The batch loop's own call of `generate_output_path` raises `ValueError`
  for an input without a final component (such as `/`). The loop reports
  that as an unknown error.

## Model

| member | source | states |
|---|---|---|
| `Formats.RegistryKeys` | confconv/converters.py:89-103 | Both tables have exactly the keys yaml, yml, json, toml and ini |
| `Formats.ExtensionIsDotFormat` | confconv/converters.py:97-103 | The extension of every format `f` is `"." + f` |
| `Formats.ExtensionsDistinct` | confconv/converters.py:97-103 | Two different formats never share an extension |
| `Formats.SharedConverter` | confconv/converters.py:89-95 | Two tags get the same converter if and only if they are equal or are yaml and yml |
| `Documents.Render` | confconv/converters.py:82 | `str()` of a string is the string itself; `str()` of a list is bracketed and `str()` of a dict is braced |
| `PurePaths.Parse` | confconv/utils.py:6 | `Path(s)` has root "", "/" or "//", and every component is non-empty, not "." and has no slash |
| `PurePaths.Suffix` | confconv/utils.py:6 | The suffix is non-empty exactly when the last dot of the name is neither its first nor its last character; it is then a dot and at least one character without a further dot |
| `PurePaths.Stem` | confconv/utils.py:11-12 | Stem followed by suffix gives back the name; a non-empty name has a non-empty stem |
| `PurePaths.LowerIsLower` | confconv/utils.py:6 | A lower-cased string has no upper-case letter, and lower-casing such a string changes nothing |
| `PurePaths.PathStr` | confconv/utils.py:12 | `str()` of a parsed path is never empty and its root reads back as the path's root; ParseStr completes the round trip |
| `PurePaths.ParseStr` | confconv/utils.py:12 | Printing a parsed path and parsing the text gives back the same path |
| `PurePaths.NameOfAppend` | confconv/utils.py:6 | The final component of `dir/c` is `c`, whatever `dir` contains |
| `PurePaths.StemPlusExtension` | confconv/utils.py:11-12 | A stem followed by a valid extension has that extension as suffix and that stem as stem |
| `PurePaths.WithSuffix` | confconv/utils.py:12 | `with_suffix` succeeds only on a path with a final component, keeping its root and its parent components; its empty-name error occurs only without one. WithValidSuffix, WithOwnSuffix and Utils.GenerateFailsOnlyWithoutName state the rest |
| `PurePaths.WithValidSuffix` | confconv/utils.py:12 | With a valid extension and a non-empty name, `with_suffix` succeeds; it keeps the root and the parent components, keeps the stem, and makes the extension the suffix |
| `PurePaths.WithOwnSuffix` | confconv/utils.py:12 | `with_suffix` with the suffix the path already has gives back the same path |
| `Utils.GetFileFormat` | confconv/utils.py:4-6 | The format contains no dot, no slash and no upper-case letter |
| `Utils.FormatEmptyIff` | confconv/utils.py:6 | The format is empty if and only if the name's last dot is missing, or is its first or last character |
| `Utils.DotNamesHaveNoFormat` | confconv/utils.py:6 | Hidden names whose only dot leads (`.json`), and names ending in a dot, have no format |
| `Utils.FormatOfFinalComponent` | confconv/utils.py:6 | Directory names never influence the format: `dir/c` has the format of `c` |
| `Utils.GenerateOutputPath` | confconv/utils.py:8-12 | An unknown target fails with a KeyError for that target; every failure is a KeyError or a ValueError |
| `Utils.ExtensionsAreValid` | confconv/converters.py:97-103 | Every registered extension is a valid lower-case suffix |
| `Utils.GenerateFailsOnlyWithoutName` | confconv/utils.py:11-12 | For a known target, generation succeeds if and only if the input has a final component; otherwise it fails with the empty-name ValueError |
| `Utils.GenerateKeepsParentAndStem` | confconv/utils.py:11-12 | The output keeps the root, the parent directories and the stem of the input, and its name is that stem followed by the target's extension |
| `Utils.FormatFromSuffix` | confconv/utils.py:6 | A lower-case suffix `.x` gives the format `x` |
| `Utils.FormatOfGeneratedPath` | confconv/utils.py:8-12 | The generated path for target `t` has format `t` |
| `Utils.GenerateIdempotent` | confconv/utils.py:12 | Generating again from the output, with the same target, gives the output itself |
| `Utils.OwnOutput` | confconv/utils.py:4-12 | An input whose suffix already is the target's extension is its own output path, and its format is the target |
| `Utils.MixedCaseFormat` | confconv/utils.py:6 | The suffix is lower-cased before its dot is dropped: `a.JSON` has the format json |
| `Utils.MixedCaseOutput` | confconv/utils.py:12 | `with_suffix` replaces an upper-case suffix by the lower-case extension: the json output of `a.JSON` is `a.json`, a different path |
| `Utils.OutputDiffersFromInput` | confconv/utils.py:12 | For a target that differs from the input's format, the output path is never the input path |
| `Converters.Load` | confconv/converters.py:24-75 | Every converter's `try`/`except` around its load: a load either returns a document or raises a ConversionError that names the converter and parsing; INI load fails exactly when the parser fails |
| `Converters.SectionsDocument` | confconv/converters.py:73 | The comprehension over the parsed sections gives a dict with one entry per section, whose keys are strings and whose values are dicts of strings |
| `Converters.IniLoadShape` | confconv/converters.py:69-75 | INI load gives one entry per parsed section, in order, each a dict from option name to string value |
| `Converters.SetSection` | confconv/converters.py:82 | Assigning "DEFAULT" leaves the sections alone and, for a str key, replaces the defaults; any other name becomes a section; a str key replaces that section's options |
| `Converters.SetSectionKeepsOthers` | confconv/converters.py:82 | Assigning one section leaves every section of another name unchanged |
| `Converters.ConfigParser.constructor` | confconv/converters.py:80 | A new parser holds no defaults and no sections |
| `Converters.ConfigParser.SetItem` | confconv/converters.py:82 | `config[key] = values` updates the parser's state as SetSection says, with the key's `str()` as the name and clearing only for a str key |
| `Converters.ConfigParser.Write` | confconv/converters.py:83-85 | `write` writes the DEFAULT section if it has options, then each section, each beginning with `fp.write`. On a text stream it always succeeds and only appends; on a list it succeeds exactly when the parser has nothing to write, leaving the list unchanged, and otherwise fails because a list has no `write` |
| `Converters.WriteSection` | confconv/converters.py:84 | Writing one section succeeds exactly on a text stream, which it only appends to; on a list its first `fp.write` fails |
| `Converters.Stringify` | confconv/converters.py:82 | The coerced dict has no more options than the section has entries |
| `Converters.StringifyKeys` | confconv/converters.py:82 | The option names are exactly the `str()` of the section's keys |
| `Converters.StringifyValue` | confconv/converters.py:82 | Each option holds `str()` of the value of the last entry whose key prints as that option's name |
| `Converters.FirstNonMapping` | confconv/converters.py:81-82 | Finds the first section value that is not a dict; none is found if and only if all of them are dicts |
| `Converters.FirstNonMappingAt` | confconv/converters.py:81-82 | The first non-dict value after a run of dicts is the one found |
| `Converters.ConfigAfter` | confconv/converters.py:80-82 | The loop's assignments never make DEFAULT a section; SectionsAfter and LastSectionWins state which sections remain and what they hold |
| `Converters.IniDumped` | confconv/converters.py:77-87 | A successful INI dump returns ""; a document that is not a dict fails on its missing `items` |
| `Converters.IniDump` | confconv/converters.py:77-87 | The imperative dump (a loop over the sections with a ConfigParser, then `write` to a list) returns what IniDumped specifies |
| `Converters.RenderedDefault` | confconv/converters.py:82 | Only the str "DEFAULT" prints as "DEFAULT" |
| `Converters.SectionsAfter` | confconv/converters.py:80-82 | After the loop, the parser has a section for every printed key except "DEFAULT" |
| `Converters.LastSectionWins` | confconv/converters.py:81-82 | A section named by a str key holds the coerced options of that key's value: nested lists and dicts are printed, not rejected |
| `Converters.IniDumpSucceedsOnlyWhenEmpty` | confconv/converters.py:80-87 | With distinct keys, INI dump succeeds if and only if the document is `{}` or `{"DEFAULT": {}}` |
| `Converters.IniDumpRejectsNonMapping` | confconv/converters.py:81-87 | A non-dict section value makes the dump fail on its `items`, whatever came before |
| `Converters.IniDumpFailsAtWrite` | confconv/converters.py:83-87 | A document of dicts with any key other than "DEFAULT" fails at `write` |
| `Converters.IniLoadedNotDumpable` | confconv/converters.py:69-87 | A loaded INI file with a section cannot be dumped back to INI |
| `Converters.Dumped` | confconv/converters.py:30-87 | Every converter's `try`/`except` around its dump: a dump either returns text or raises a ConversionError that names the converter and exporting; INI dump succeeds exactly when IniDumped does, and then returns "" |
| `Converters.Dump` | confconv/converters.py:30-87 | Dispatching to the converter's dump, with INI's loop, returns what Dumped specifies |
| `Cli.Attempt` | confconv/cli.py:14-44 | A failure leaves the files unchanged and echoes nothing; the only lines echoed are "skipped" or "converted"; no file is deleted and only the input's output path can change |
| `Cli.ConvertFileOutcome` | confconv/cli.py:12-49 | convert_file only raises ClickException, and when it raises it has written nothing and echoed nothing; it deletes no file and changes no file but the input's output |
| `Cli.RaisedMessageShape` | confconv/cli.py:46-49 | What escapes convert_file is a ClickException exactly when the `try` raised; its message is the converter's own exactly when a ConversionError was raised, and otherwise carries the generic prefix |
| `Cli.UnreadableFirst` | confconv/cli.py:16 | An unreadable input fails first, with the generic prefix, whatever the target |
| `Cli.UnsupportedSourceFirst` | confconv/cli.py:19-20 | An unsupported source format fails before the target is looked at, with the generic prefix, and changes nothing |
| `Cli.UnsupportedTargetSecond` | confconv/cli.py:21-22 | With a supported source, an unsupported target fails next and changes nothing |
| `Cli.SameFormatSkips` | confconv/cli.py:25-27 | A file already in the target format is reported as skipped; nothing is loaded, dumped or written |
| `Cli.ConvertWrites` | confconv/cli.py:30-44 | When load and dump succeed, the dumped text is written to the output path, which always differs from the input, and a "converted" line is echoed |
| `Cli.SelfOverwriteUnreachable` | confconv/cli.py:36-40 | convert_file never raises the self-overwrite error |
| `Cli.ConversionErrorKeepsMessage` | confconv/cli.py:30-47 | A failed load or dump reaches the user with the converter's own message and leaves the files alone |
| `Cli.Step` | confconv/cli.py:60-74 | One turn deletes no file and changes no file but its input's output path |
| `Cli.Batch` | confconv/cli.py:59-74 | The loop deletes no file, and every file it creates or changes is the output path of one of its inputs; BatchAppend and QuietMutesOnlyBatchLines state its order and `--quiet` |
| `Cli.BatchAppend` | confconv/cli.py:59-74 | A batch over `a + b` runs `a`, then `b` on the files `a` left: inputs run in order, and a failure never stops later inputs |
| `Cli.ExistingOutputSkipped` | confconv/cli.py:62-66 | Without `--force`, an input whose output exists is skipped; convert_file is not called and the files are unchanged |
| `Cli.StepKeepsInput` | confconv/cli.py:36-43 | A turn of the loop never changes its own input file |
| `Cli.SameFormatNeedsForce` | confconv/cli.py:62-66 | For an input whose suffix is the target's extension, the input is its own output: without `--force` the turn reports an existing output and changes nothing, and only with `--force` does it reach the "skipped" line |
| `Cli.ForcedSameFormatSkips` | confconv/cli.py:62-68 | With `--force`, an input already in the target format reaches convert_file, which echoes "skipped" and changes nothing |
| `Cli.CaseOnlySuffixSkips` | confconv/cli.py:62-68 | Without `--force`, `a.JSON` for json reaches convert_file when `a.json` does not exist, and the turn echoes exactly the "skipped" line and changes nothing |
| `Cli.NamelessInputReported` | confconv/cli.py:62-74 | An input without a final component is reported as an unknown error, and the files are unchanged |
| `Cli.Muted` | confconv/cli.py:64-74 | Removing the batch loop's lines keeps only convert_file's lines, and keeps every line when all of them are convert_file's |
| `Cli.StepQuiet` | confconv/cli.py:60-74 | In one turn, `--quiet` changes nothing but removing the loop's own lines |
| `Cli.QuietMutesOnlyBatchLines` | confconv/cli.py:59-74 | Over a whole batch, `--quiet` leaves the files as they would be without it and removes only the loop's lines; "skipped" and "converted" lines stay |
| `Cli.CommandPerFormat` | confconv/cli.py:78-79 | A command `to-f` exists if and only if `f` is a registered format, and it converts to `f` |
| `Cli.BatchTargetKnown` | confconv/cli.py:51-62 | A command's target always has an extension, so the loop's `generate_output_path` can fail only with ValueError |
| `Cli.Host.TryConvert` | confconv/cli.py:14-44 | The `try` body changes the files and the console as Attempt says, and raises what it says |
| `Cli.Host.ConvertFile` | confconv/cli.py:12-49 | convert_file changes the files and the console as ConvertFileOutcome says |
| `Cli.Host.RunStep` | confconv/cli.py:60-74 | One turn of the loop changes the files and the console as Step says |
| `Cli.Host.RunCommand` | confconv/cli.py:57-74 | The `to-<f>` command's loop leaves the files and the console as Batch says for its target |

## Left out

- The YAML, JSON and TOML parsers and writers are foreign libraries. They
  are the function-valued fields of `Converters.Library`, so nothing is
  proved about their grammars, round trips, key order, indentation, or
  TOML's rejection of null.
- The grammar of `ConfigParser.read_string`, and the inheritance of DEFAULT
  options into every section when the sections are listed, are abstract.
  `Library.iniRead` stands for them.
- Converters.IniDumped: `optionxform` lower-casing of option names,
  `read_dict`'s duplicate-option check and the `%`-interpolation check of
  values are not modelled. Each can only replace the reported cause of a
  dump that fails anyway, because each needs an option in the parser.
- Converters.Stringify: option names keep their case. Real configparser
  lower-cases them, and that changes only the contents of a parser whose
  write fails in either case.
- Documents.Render: quotes and control characters inside strings nested in
  lists and dicts are not escaped as `repr` would escape them.
- Mappings whose keys are lists or dicts cannot exist in Python, because
  such keys are unhashable. The model accepts them and treats them like any
  other non-str key.
- Floating-point numbers are not part of the document datatype.
- PurePaths.Lower: only ASCII letters are lower-cased, not all of Unicode.
  Paths are POSIX paths, compared case-sensitively.
- Click's argument parsing, its `exists=True` check of input paths, the
  stdout/stderr split and exit codes. The console is one list of lines.
- Real file I/O: encodings, permissions, read or write failures, and
  directories. The file system is a map from paths to contents, and an
  absent path is the only read failure (an OSError). `read_file` is
  modelled inline inside `Cli.Attempt`.
- Message texts. Each message is a structured value naming its parts, not
  the formatted text.
- Converters.ConfigParser.Write: the order in which sections and options
  reach a text stream is not fixed, because the parser's state is a pair of
  unordered maps. confconv only ever hands `write` a list, where no section
  is written.
