/** confconv/utils.py: the format of a file is read off its suffix, and
    the output path of a conversion is the input path with the suffix of
    the target format. */
module Utils {
  import opened Wrappers
  import opened PurePaths
  import opened Formats
  import opened Errors

  /** `get_file_format`: the lower-cased suffix of the final component,
      without its dot; "" when the final component has no suffix. */
  function GetFileFormat(filePath: string): (f: string)
    ensures '.' !in f && '/' !in f && IsLower(f)
  {
    var name := Name(Parse(filePath));
    var suffix := Lower(Suffix(name));
    LowerIsLower(Suffix(name));
    assert '/' !in Suffix(name) by {
      assert '/' !in name;
    }
    if suffix == "" then "" else suffix[1..]
  }

  /** The format is empty exactly when the last dot of the final component
      is missing, is its first character or is its last character. */
  lemma FormatEmptyIff(filePath: string)
    ensures var name := Name(Parse(filePath));
      GetFileFormat(filePath) == "" <==> !(0 < LastIndexOf(name, '.') < |name| - 1)
  {
  }

  /** Hidden files such as `.json`, whose only dot leads, and names ending
      in a dot have no format. */
  lemma DotNamesHaveNoFormat(dir: string, c: string)
    requires ValidPart(c)
    requires (c[0] == '.' && '.' !in c[1..]) || c[|c| - 1] == '.'
    ensures GetFileFormat(dir + "/" + c) == ""
  {
    NameOfAppend(dir, c);
  }

  /** Only the final component counts: dots in directory names never
      change the format. */
  lemma FormatOfFinalComponent(dir: string, c: string)
    requires ValidPart(c)
    ensures GetFileFormat(dir + "/" + c) == GetFileFormat(c)
  {
    NameOfAppend(dir, c);
  }

  /** `generate_output_path`: the lookup in EXTENSIONS raises KeyError for
      an unknown target; `with_suffix` raises ValueError for a path without
      a final component. */
  function GenerateOutputPath(inputPath: string, targetFormat: string): (r: Result<string, Exception>)
    ensures targetFormat !in EXTENSIONS ==> r == Err(KeyError(MissingKey(targetFormat)))
    ensures r.Err? ==> r.error.KeyError? || r.error.ValueError?
  {
    if targetFormat !in EXTENSIONS then Err(KeyError(MissingKey(targetFormat)))
    else match WithSuffix(Parse(inputPath), EXTENSIONS[targetFormat])
      case Err(e) => Err(ValueError(BadPath(e)))
      case Ok(q) => Ok(PathStr(q))
  }

  /** Every registered extension is a well-formed, lower-case suffix. */
  lemma ExtensionsAreValid(f: string)
    requires f in EXTENSIONS
    ensures ValidExtension(EXTENSIONS[f]) && IsLower(EXTENSIONS[f])
  {
  }

  /** For a known target the output path exists exactly when the input has
      a final component; otherwise `with_suffix` reports the empty name. */
  lemma GenerateFailsOnlyWithoutName(inputPath: string, targetFormat: string)
    requires targetFormat in EXTENSIONS
    ensures GenerateOutputPath(inputPath, targetFormat).Ok? <==> Name(Parse(inputPath)) != ""
    ensures Name(Parse(inputPath)) == "" ==>
      GenerateOutputPath(inputPath, targetFormat) == Err(ValueError(BadPath(EmptyName(PathStr(Parse(inputPath))))))
  {
    var p := Parse(inputPath);
    var ext := EXTENSIONS[targetFormat];
    ExtensionsAreValid(targetFormat);
    assert '/' !in ext && ext != "" && ext[0] == '.' && ext != ".";
    if Name(p) != "" {
      WithValidSuffix(p, ext);
    } else {
      assert WithSuffix(p, ext) == Err(EmptyName(PathStr(p)));
    }
  }

  /** The output path keeps the root, the parent directories and the stem
      of the input, and carries the target's extension as its suffix,
      whether it replaced a suffix or was appended. */
  lemma GenerateKeepsParentAndStem(inputPath: string, targetFormat: string)
    requires targetFormat in EXTENSIONS && Name(Parse(inputPath)) != ""
    ensures GenerateOutputPath(inputPath, targetFormat).Ok?
    ensures var p := Parse(inputPath);
      var q := Parse(GenerateOutputPath(inputPath, targetFormat).value);
      && q.root == p.root
      && |q.parts| == |p.parts|
      && q.parts[..|q.parts| - 1] == p.parts[..|p.parts| - 1]
      && Name(q) == Stem(Name(p)) + EXTENSIONS[targetFormat]
      && Stem(Name(q)) == Stem(Name(p))
  {
    var p := Parse(inputPath);
    ExtensionsAreValid(targetFormat);
    WithValidSuffix(p, EXTENSIONS[targetFormat]);
    ParseStr(WithSuffix(p, EXTENSIONS[targetFormat]).value);
  }

  /** A lower-case suffix `.x` gives the format `x`. */
  lemma FormatFromSuffix(filePath: string, ext: string)
    requires Suffix(Name(Parse(filePath))) == ext && ValidExtension(ext) && IsLower(ext)
    ensures GetFileFormat(filePath) == ext[1..]
  {
    LowerIsLower(ext);
  }

  /** The file written for target `t` is recognised as format `t`. */
  lemma FormatOfGeneratedPath(inputPath: string, targetFormat: string)
    requires targetFormat in EXTENSIONS && Name(Parse(inputPath)) != ""
    ensures GenerateOutputPath(inputPath, targetFormat).Ok?
    ensures GetFileFormat(GenerateOutputPath(inputPath, targetFormat).value) == targetFormat
  {
    var ext := EXTENSIONS[targetFormat];
    GenerateKeepsParentAndStem(inputPath, targetFormat);
    var out := GenerateOutputPath(inputPath, targetFormat).value;
    ExtensionsAreValid(targetFormat);
    StemPlusExtension(Stem(Name(Parse(inputPath))), ext);
    FormatFromSuffix(out, ext);
    ExtensionIsDotFormat();
  }

  /** Generating the output path again from the output path changes nothing. */
  lemma GenerateIdempotent(inputPath: string, targetFormat: string)
    requires targetFormat in EXTENSIONS && Name(Parse(inputPath)) != ""
    ensures GenerateOutputPath(inputPath, targetFormat).Ok?
    ensures var out := GenerateOutputPath(inputPath, targetFormat).value;
      GenerateOutputPath(out, targetFormat) == Ok(out)
  {
    var ext := EXTENSIONS[targetFormat];
    var p := Parse(inputPath);
    ExtensionsAreValid(targetFormat);
    WithValidSuffix(p, ext);
    var q := WithSuffix(p, ext).value;
    ParseStr(q);
    WithValidSuffix(q, ext);
    var q2 := WithSuffix(q, ext).value;
    assert q2.parts == q2.parts[..|q2.parts| - 1] + [Name(q2)];
    assert q.parts == q.parts[..|q.parts| - 1] + [Name(q)];
    assert q2 == q;
  }

  /** A name whose suffix already is the target's extension is its own
      output, and its format is the target. */
  lemma OwnOutput(inputPath: string, targetFormat: string)
    requires targetFormat in EXTENSIONS
    requires Suffix(Name(Parse(inputPath))) == EXTENSIONS[targetFormat]
    ensures GenerateOutputPath(inputPath, targetFormat).Ok?
    ensures Parse(GenerateOutputPath(inputPath, targetFormat).value) == Parse(inputPath)
    ensures GetFileFormat(inputPath) == targetFormat
  {
    var ext := EXTENSIONS[targetFormat];
    ExtensionsAreValid(targetFormat);
    FormatFromSuffix(inputPath, ext);
    ExtensionIsDotFormat();
    OwnOutputPath(inputPath, targetFormat);
  }

  lemma OwnOutputPath(inputPath: string, targetFormat: string)
    requires targetFormat in EXTENSIONS
    requires Suffix(Name(Parse(inputPath))) == EXTENSIONS[targetFormat]
    ensures GenerateOutputPath(inputPath, targetFormat).Ok?
    ensures Parse(GenerateOutputPath(inputPath, targetFormat).value) == Parse(inputPath)
  {
    var p := Parse(inputPath);
    ExtensionsAreValid(targetFormat);
    WithOwnSuffix(p, EXTENSIONS[targetFormat]);
    ParseStr(p);
  }

  /** A relative path of one component parses to that component alone. */
  lemma ParseSingle(c: string)
    requires ValidPart(c)
    ensures Parse(c) == Path("", [c])
  {
    assert c[0] in c;
    ComponentsOfPart(c);
  }

  /** The suffix is lower-cased before its dot is dropped: `a.JSON` has
      the format json. */
  lemma MixedCaseFormat()
    ensures GetFileFormat("a.JSON") == "json"
  {
    ParseSingle("a.JSON");
    assert LastIndexOf("a.JSON", '.') == 1;
    assert Suffix("a.JSON") == ".JSON";
    assert Lower(".JSON") == ".json";
  }

  /** `with_suffix` replaces the upper-case suffix by the lower-case
      extension: the output path of `a.JSON` for json is `a.json`. */
  lemma MixedCaseOutput()
    ensures GenerateOutputPath("a.JSON", "json") == Ok("a.json")
  {
    RegistryKeys();
    assert EXTENSIONS["json"] == ".json";
    MixedCaseWithSuffix();
    OutputOfSingle("a.JSON", "json", "a.json");
  }

  /** The output path of a one-component relative path is the name
      `with_suffix` gives it. */
  lemma OutputOfSingle(c: string, targetFormat: string, q: string)
    requires targetFormat in EXTENSIONS && ValidPart(c)
    requires WithSuffix(Path("", [c]), EXTENSIONS[targetFormat]) == Ok(Path("", [q]))
    ensures GenerateOutputPath(c, targetFormat) == Ok(q)
  {
    ParseSingle(c);
    assert Join([q]) == q;
    assert PathStr(Path("", [q])) == "" + q == q;
  }

  lemma MixedCaseWithSuffix()
    ensures WithSuffix(Path("", ["a.JSON"]), ".json") == Ok(Path("", ["a.json"]))
  {
    assert LastIndexOf("a.JSON", '.') == 1;
    assert Suffix("a.JSON") == ".JSON";
    assert "a.JSON"[..6 - 5] + ".json" == "a.json";
  }

  /** A file whose format is `s` never has as its output for another
      format `t` a path equal to itself. */
  lemma OutputDiffersFromInput(inputPath: string, targetFormat: string)
    requires targetFormat in EXTENSIONS && GetFileFormat(inputPath) != targetFormat
    requires GenerateOutputPath(inputPath, targetFormat).Ok?
    ensures Parse(GenerateOutputPath(inputPath, targetFormat).value) != Parse(inputPath)
  {
    GenerateFailsOnlyWithoutName(inputPath, targetFormat);
    FormatOfGeneratedPath(inputPath, targetFormat);
  }
}
